# SimonSays: verified models

SimonSays is a wake-word voice appliance: a device wakes, confirms the wake word with a small int8
neural network, streams audio to a server as chunked HTTP, and sleeps again when the server, having
recognised a command, closes the connection. These Dafny modules model its computational core and
prove what the code is for. Code that works in place is modelled in place: arrays for buffers,
classes for the structs that are updated, loops where the source loops; a method is proved against a
specification function and the properties are lemmas about that function.

Modules, in reading order:

- **Fast Fourier transform**: `Bits`, `Complex`, `BitReversal`, `Dft`, `DftInverse`, `Fft`. The
  reverse-carry reordering, the butterfly stages and the scaling compute the DFT sum; the two
  directions cancel. Arithmetic is exact. The roots are a function `w` from the transform length to
  a complex number, known only through w(2) = -1, w(2m)^2 = w(m) and, for cancellation, w * conj(w)
  = 1, which cos/sin satisfy.
- **Streaming protocol**: `CString`, `StreamProto`, `IngestSpec`, `IngestBatch`, `HttpIngest`,
  `LineMeaning`, `RoundTrip`, `HeaderLimits`, `FsmTypes`, `StreamClient`. Encoder, resumable parser
  and client loop. `IngestSpec` is a one-byte-at-a-time machine, `IngestBatch` a reader of whole
  lines and chunks it agrees with, and `HttpIngest` the buffered parser that refines it;
  `LineMeaning` says which lines are accepted and as what. Server words are 64 bits.
- **Integer inference**: `Quant`, `PyQuant`, `Tensors`, `KernelSpec`, `KernelMeaning`, `PyKernels`,
  `Kernels`, `KwsModel`, `KwsMeaning`. Both the C engine (flat buffers, 32-bit accumulators) and the
  Python mirror (nested tensors, unbounded integers) are proved equal to one reference
  (`KernelSpec`), hence to each other; the two `Meaning` modules say what that reference is without
  its definitions.
- **Training layers**: `RealSums`, `ConvAdjoint`, `Layers`. Forward and backward passes and the
  adjoint identities that make the backward passes gradients.
- **Server session**: `SttSpec`, `SttStub`, `Debounce`, `Vad`, `Intent`, `PcmSpans`, `Session`,
  `SessionRuns`. Each part on its own, then a session as any sequence of payload and tick calls.
- **Ring buffer**: `RingBuf`. **Wake cycle**: `Fsm`, `App`.

The transport, the PCM source, the wake causes and the hooks are scripts: any sequence of answers,
legal or not. A script that is used up answers with an error. Time is a parameter.

Where the code and its documentation differ, the model follows the code:

- `server/include/server/http_ingest.h:48-49` promises that a call consumes all of its input unless
  it fails; the parser also stops when the request is complete (`server/src/http_ingest.c:161`).
  `IngestSpec.StopsAtEnd` is an input that is not consumed whole, `IngestSpec.TakenExact` says
  exactly which inputs are, and `HttpIngest.Parser.Feed` when the result is the length.
- `firmware/core/include/core/net/stream_client.h:43-44` says that the scratch must hold the header
  and one chunk and gives a size; the size (`firmware/core/src/net/stream_client.c:43`) is that of a
  PCM frame and an encoded chunk and does not cover the header, which can fail on its own.
  `StreamClient.NeedMissesHeader` gives such a scratch for every configuration, and
  `StreamClient.RunSession` states both failures. The scratch in `firmware/main/app_main.c:43` is
  smaller than that size.
- `firmware/core/src/app.c:47` calls an unexpected action a defensive bail. `App.StuckForever` shows
  what it does: the reducer stays in the middle of the protocol and ignores every later wake-up;
  `App.BadHookSticks` is a run in which it happens.
- The kernels are said to mirror each other exactly (`kws-framework/kwslib/kernels.py:1`), but the
  size formula truncates in C and floors in Python. `Kernels.SizesDiffer` is an input on which they
  differ, `Kernels.SizesAgree` says exactly when they agree.
- `server/src/stt_stub.c:7-10` drops a transcript when three are pending; `SttSpec.Lossless` gives
  the exact condition for losing none.
- `server/src/session.c:30` drops a trailing odd byte of each payload span, after which the next
  span is read out of step. `PcmSpans.SplitExact` and `PcmSpans.SpansExact` say exactly when cutting
  a payload into spans is harmless; `SessionRuns.SplitInvisible` is the consequence for a session.

## Model

| member | source | states |
|---|---|---|
| `BitReversal.RevInvolution` | firmware/core/src/dsp/fft.c:19-30 | bit reversal of an index below 2^bits undoes itself, so the swaps of the reordering loop form an involution |
| `BitReversal.RevPermutes` | firmware/core/src/dsp/fft.c:19-30 | bit reversal maps the indices below 2^bits onto themselves, one to one |
| `BitReversal.CarryStep` | firmware/core/src/dsp/fft.c:21-25 | one step of the reversed carry: a set top bit is cleared and the carry moves on, a clear top bit is set and ends it |
| `BitReversal.NextReversed` | firmware/core/src/dsp/fft.c:21-25 | the and/xor loop terminates and turns the bit reversal of i-1 into the bit reversal of i, for every power of two |
| `Dft.HalfTurn` | firmware/core/src/dsp/fft.c:33-36 | from the identities w_2 = -1 and w_2m^2 = w_m alone: half the powers of any stage root reach -1 |
| `Dft.FullTurn` | firmware/core/src/dsp/fft.c:33-36 | and all of them reach 1 |
| `Dft.StridedSplit` | firmware/core/src/dsp/fft.c:37-48 | a partial sum over 2^(s+1) samples splits into the even and odd samples with one twiddle factor (the Cooley-Tukey identity) |
| `Dft.StridedPeriod` | firmware/core/src/dsp/fft.c:37-48 | a partial sum over 2^s samples is periodic in the frequency index with period 2^s |
| `Dft.StageStep` | firmware/core/src/dsp/fft.c:37-52 | the sum and difference of two stage-s entries and the power of the twiddle are exactly the two stage-(s+1) entries |
| `Dft.StageZero` | firmware/core/src/dsp/fft.c:19-30 | after the reordering the buffers hold the one-sample transforms |
| `Dft.StageLast` | firmware/core/src/dsp/fft.c:33-54 | after log2(n) stages each entry is the whole DFT sum |
| `DftInverse.Orthogonality` | firmware/core/src/dsp/fft.c:32-54 | the powers of a 2^s-th root summed over k*d give 2^s when 2^s divides d and 0 otherwise |
| `DftInverse.DoubleTransform` | firmware/core/src/dsp/fft.c:32-54 | transforming with a root and then with its inverse gives n times the input |
| `DftInverse.InverseUndoes` | firmware/core/src/dsp/fft.c:32-61 | dividing by n then gives the input back |
| `DftInverse.TransformDivide` | firmware/core/src/dsp/fft.c:32-61 | scaling commutes with the transform, so the order inverse-then-forward cancels too |
| `Fft.ClearLowestBit` | firmware/core/src/dsp/fft.c:5-8 | n & (n-1) is zero exactly for the powers of two, for every positive n |
| `Fft.IsPow2` | firmware/core/src/dsp/fft.c:5-8 | returns true exactly for powers of two, for every integer including zero and negatives |
| `Fft.BitReverse` | firmware/core/src/dsp/fft.c:19-30 | the conditional swaps leave in entry k what was in entry Rev(k), for both buffers, and nothing beyond n changes |
| `Fft.Butterfly` | firmware/core/src/dsp/fft.c:40-48 | entries a and b become u + v*cur and u - v*cur; every other entry is untouched |
| `Fft.ButterflyGroup` | firmware/core/src/dsp/fft.c:37-51 | the running twiddle of step k is the k-th power of the stage root, so each pair gets its own power |
| `Fft.StageBlock` | firmware/core/src/dsp/fft.c:37-52 | one block of a stage goes from the stage-s to the stage-(s+1) partial transforms; the other blocks are kept |
| `Fft.Stage` | firmware/core/src/dsp/fft.c:33-53 | a whole stage advances every entry by one level |
| `Fft.Stages` | firmware/core/src/dsp/fft.c:32-54 | all stages together leave the DFT coefficient of the input in every entry |
| `Fft.Normalise` | firmware/core/src/dsp/fft.c:56-61 | each of the first n entries is divided by n, the others are kept |
| `Fft.FftRadix2` | firmware/core/src/dsp/fft.c:10-63 | false, with both buffers unchanged, exactly when n is not a power of two; otherwise, forward, entry k is the plain sum of x[j] times the jk-th power of the conjugate root, and inverse, the same sum with the root itself divided by n; nothing beyond n changes |
| `Fft.ResultEntries` | firmware/core/src/dsp/fft.c:32-61 | the two directions entry by entry: only the inverse carries 1/n |
| `Fft.ConstantInput` | firmware/core/src/dsp/fft.c:32-61 | so a constant input c goes forward to n*c in bin 0 and zero in every other bin, for every power of two |
| `Fft.DirectionsCancel` | firmware/core/src/dsp/fft.c:32-61 | for every power-of-two length and every input the inverse result of the forward result is the input, and the other way round |
| `Fft.ThereAndBack` | firmware/core/src/dsp/fft.c:10-63 | two calls in opposite directions, in either order, restore both buffers |
| `IngestSpec.RunAppend` | server/src/http_ingest.c:155-239 | the one-byte machine: reading a then b is reading a++b, for the state and for the number of bytes taken, on all inputs |
| `IngestSpec.FragmentationInvariance` | server/src/http_ingest.c:155-239 | any way of cutting a byte stream into reads ends in the same state, with the same error, fields, headers and payload, malformed streams included |
| `IngestSpec.Final` | server/src/http_ingest.c:157-161 | done and error are final: no later byte changes anything, and a done parser takes no byte |
| `IngestSpec.TakenExact` | server/src/http_ingest.c:157-161 | a call takes its whole input if and only if the message does not end before the last byte, that is if no proper prefix reaches the done state |
| `IngestSpec.StopsAtEnd` | server/src/http_ingest.c:222-231 | an input for which the header file's promise fails: in the trailer state, a line end and one more byte; one byte is taken |
| `IngestSpec.PayloadGrows` | server/src/http_ingest.c:200-212 | payload once delivered is never altered or withdrawn |
| `IngestSpec.RunData` | server/src/http_ingest.c:200-212 | chunk data is delivered verbatim until the announced size is used up |
| `IngestSpec.RunLine` | server/src/http_ingest.c:32-50 | a line ended by CR LF is processed without its line end |
| `IngestBatch.MachineIsBatch` | server/src/http_ingest.c:155-239 | the byte machine computes what a reader of whole lines and whole chunks computes, on every input from every message boundary, line overflow included (both use the same reading of a single line) |
| `HttpIngest.ParseDecimal` | server/src/http_ingest.c:96-104 | the value of the leading digits modulo 2^32 |
| `HttpIngest.ParseChunkSize` | server/src/http_ingest.c:128-153 | the hexadecimal value before any extension, modulo the word, or SIZE_MAX for an empty or malformed size |
| `HttpIngest.Parser.constructor` | server/src/http_ingest.c:17-27 | a fresh parser is the initial state of the machine |
| `HttpIngest.Parser.AccumulateLine` | server/src/http_ingest.c:29-50 | the three outcomes of reading part of a line: each is the byte machine run over exactly the consumed bytes, with no state change before the last of them; 0 only when the input is used up, -1 only on overflow |
| `HttpIngest.Parser.ParseRequestLine` | server/src/http_ingest.c:67-94 | negative exactly when the line is no METHOD PATH REST with fields that fit; which of the two fields are set in each case, so a bad path still leaves the method set |
| `HttpIngest.Parser.ParseHeaderLine` | server/src/http_ingest.c:106-126 | session and confidence are set by their names in any case, every line with a colon is reported, a line without one is ignored |
| `HttpIngest.Parser.EndText` | server/src/http_ingest.c:38-41 | the CR before a line end is stripped and the text NUL-terminated |
| `HttpIngest.Parser.FinishSize` | server/src/http_ingest.c:189-197 | what a completed chunk-size line does: error, last chunk or data of that size |
| `HttpIngest.Parser.TakeData` | server/src/http_ingest.c:200-212 | one turn of the data state: it always makes progress, and it is the byte machine over the bytes it consumes |
| `HttpIngest.Parser.FinishLine` | server/src/http_ingest.c:167-231 | what a completed line does in each of the five line states |
| `HttpIngest.Parser.Feed` | server/src/http_ingest.c:155-239 | one call equals the byte machine run over the buffer: state, error, completion, fields and concatenated payload; it returns -1 in the error state and otherwise the number of bytes taken, and it returns the length if and only if there is no error and the message does not end before the last byte |
| `LineMeaning.RequestOf` | server/src/http_ingest.c:67-94 | a line made of a method of 1 to 7 and a path of 1 to 127 bytes without spaces, each followed by a space, is read as those two |
| `LineMeaning.RequestShape` | server/src/http_ingest.c:67-94 | and only such a line is |
| `LineMeaning.HeaderOf` | server/src/http_ingest.c:106-126 | the name is the text before the first colon, the value the text after it and its blanks |
| `LineMeaning.NoHeader` | server/src/http_ingest.c:106-126 | a line is no header exactly when it has no colon |
| `LineMeaning.KnownFields` | server/src/http_ingest.c:116-125 | session (63 characters of it) and confidence are set by their names in any letter case, every other header is only reported |
| `LineMeaning.DigitsExact` | server/src/http_ingest.c:128-153 | the digits are 0-9 and a-f in either case, with the value of their place |
| `LineMeaning.DecimalPrefix` | server/src/http_ingest.c:96-104 | the decimal text of any number, followed by anything but a digit, is read as that number modulo 2^32 |
| `LineMeaning.ExtensionIgnored` | server/src/http_ingest.c:128-153 | a chunk extension does not change the size |
| `LineMeaning.BadSizes` | server/src/http_ingest.c:128-153 | a size is refused exactly when it is empty, has a character that is no hex digit, or is SIZE_MAX modulo the word |
| `LineMeaning.SizeIgnoresCase` | server/src/http_ingest.c:128-153 | the letter case of the digits does not change the size |
| `LineMeaning.LineVerdict` | server/src/http_ingest.c:155-239 | which complete lines are an error, in each of the five line states, and which state follows each of the others |
| `StreamProto.DigitsValue` | firmware/core/src/net/stream_proto.c:16-26 | written digits read back as the number, in every radix from 2 to 16 |
| `StreamProto.DigitsLength` | firmware/core/src/net/stream_proto.c:5-14 | a number below radix^k has at most k digits |
| `StreamProto.DigitsMonotone` | firmware/core/src/net/stream_proto.c:5-14 | a larger number never has fewer hex digits |
| `StreamProto.DigitsLowercase` | firmware/core/src/net/stream_proto.c:16-26 | hex digits are written in lower case |
| `StreamProto.HexDigits` | firmware/core/src/net/stream_proto.c:5-14 | the shift loop returns the length of the hex text, one for zero |
| `StreamProto.WriteHex` | firmware/core/src/net/stream_proto.c:16-26 | writes exactly the lowercase hex text, backwards, and no byte outside it |
| `StreamProto.Append` | firmware/core/src/net/stream_proto.c:28-38 | appends the whole string or nothing, exactly by whether it fits |
| `StreamProto.DecimalReversed` | firmware/core/src/net/stream_proto.c:43-57 | the ten-byte scratch suffices for every 32-bit number and receives its decimal text |
| `StreamProto.AppendU32` | firmware/core/src/net/stream_proto.c:40-64 | appends the whole decimal text or nothing, exactly by whether it fits |
| `StreamProto.BuildRequestHeader` | firmware/core/src/net/stream_proto.c:66-87 | returns the length and leaves the whole header text exactly when it fits, else 0, and never writes beyond cap |
| `StreamProto.ChunkOverhead` | firmware/core/src/net/stream_proto.c:89-96 | the exact encoded length of a chunk, 0 for an empty payload |
| `StreamProto.EncodeChunk` | firmware/core/src/net/stream_proto.c:98-117 | 0 exactly for an empty payload or a buffer that is too small; else the encoding of RFC 7230 section 4.1, also when the payload lies in the same buffer beyond cap, and no byte after it changes |
| `StreamProto.EncodeFinal` | firmware/core/src/net/stream_proto.c:119-128 | the terminating chunk exactly when it fits |
| `RoundTrip.RequestExact` | server/src/http_ingest.c:67-94 | the encoder's request line comes back as POST and the same path if and only if the path has 1 to 127 bytes and no space |
| `RoundTrip.SessionExact` | server/src/http_ingest.c:57-65 | a session id survives the blank skipping and the truncation if and only if it has at most 63 bytes and no leading blank |
| `RoundTrip.ConfidenceText` | firmware/core/src/net/stream_proto.c:40-64 | every 32-bit confidence survives writing and parsing |
| `RoundTrip.SizeText` | firmware/core/src/net/stream_proto.c:16-26 | every chunk length below SIZE_MAX survives writing and parsing |
| `RoundTrip.RunField` | server/src/http_ingest.c:174-184 | one encoded header field is read back as its name and value |
| `RoundTrip.RunHeaderBlock` | firmware/core/src/net/stream_proto.c:66-87 | for every sendable configuration the parser reads the whole header with exactly its path, session, confidence and five headers |
| `RoundTrip.RunChunk` | firmware/core/src/net/stream_proto.c:98-117 | an encoded chunk adds exactly its payload and returns the parser to the chunk-size state |
| `RoundTrip.RunChunks` | firmware/core/src/net/stream_proto.c:98-117 | a list of chunks adds the concatenation of the payloads |
| `RoundTrip.RunFinal` | firmware/core/src/net/stream_proto.c:119-128 | the terminator completes the request with its last byte and not before |
| `HeaderLimits.LineTooLong` | server/src/http_ingest.c:44-46 | a line without room for its CR is an error, whatever follows |
| `HeaderLimits.RequestKept` | server/src/http_ingest.c:67-94 | after the request line no byte changes method or path |
| `HeaderLimits.Unsendable` | server/src/http_ingest.c:155-239 | a header with a path, host or session beyond the limits ends in an error or with another request, whatever follows it |
| `HeaderLimits.HeaderExact` | firmware/core/src/net/stream_proto.c:66-87 | the header block is read back if and only if the path has 1 to 127 bytes and no space, the host at most 504 bytes and the session id at most 489 (of which 63 are kept) |
| `HeaderLimits.StreamExact` | firmware/core/src/net/stream_proto.c:66-128 | the same for a whole session under every fragmentation |
| `RoundTrip.WholeStream` | firmware/core/src/net/stream_proto.c:66-128 | header, any list of non-empty payloads and terminator: the parser ends complete with those fields and the exact concatenation, and is not complete one byte earlier |
| `RoundTrip.ReceivedFields` | firmware/core/src/net/stream_proto.c:66-128 | what the parser then holds: POST, the path, the confidence, the concatenated payload and, if it has at most 63 bytes and no leading blank, the session id |
| `RoundTrip.TakesStream` | server/src/http_ingest.c:155-239 | whatever bytes follow, the parser takes exactly the bytes of the stream and ends in the same state |
| `RoundTrip.AnyFragmentation` | server/src/http_ingest.c:155-239 | the same for every fragmentation of the encoder's bytes |
| `StreamClient.Transport.Send` | firmware/core/include/core/net/stream_client.h:21-28 | the transport contract: it accepts a prefix of what it is given, or fails and accepts nothing |
| `StreamClient.Transport.Recv` | firmware/core/include/core/net/stream_client.h:21-28 | each poll is counted and says whether the peer closed or the line failed |
| `StreamClient.Source.Read` | firmware/core/include/core/net/stream_client.h:30-35 | the source contract: the next frame, at most the requested size, written only into the tail it was given; 0 is the end of the recording and is remembered |
| `StreamClient.SendAll` | firmware/core/src/net/stream_client.c:5-18 | over any partial sends exactly a prefix goes out, all of it exactly on success |
| `StreamClient.PollClose` | firmware/core/src/net/stream_client.c:20-33 | 1 exactly for a closed peer, -1 exactly for a real error |
| `StreamClient.ChunkFits` | firmware/core/src/net/stream_client.c:43-46 | when scratch has the room the client checks for, every frame the source can deliver is encodable in the part before the PCM tail |
| `StreamClient.NeedTight` | firmware/core/src/net/stream_client.c:43-46 | and that size is exact: a scratch holds a full frame beside its chunk if and only if it passes the check |
| `StreamClient.AwaitClose` | firmware/core/src/net/stream_client.c:74-83 | polls at least once unless max_chunks is 0, and at most max_chunks times, all of them before a timeout; closed, failed or timed out exactly as the polls say |
| `StreamClient.EndSpeech` | firmware/core/src/net/stream_client.c:67-84 | the branch of an ended recording: the terminator and then the polls, with the cause of each event |
| `StreamClient.SendFrame` | firmware/core/src/net/stream_client.c:86-90 | the wire gains exactly the chunk of the frame just read, or a proper prefix of it when the send fails |
| `StreamClient.SendFinal` | firmware/core/src/net/stream_client.c:93-97 | the wire gains exactly the terminator, or a proper prefix of it when the send fails |
| `StreamClient.StreamFrames` | firmware/core/src/net/stream_client.c:55-98 | the chunk loop and the closing, over every script: one poll and one read per turn, one chunk per frame in order, then the terminator; it finalises only when the recording ended or max_chunks frames are out, it stops early only for a close or a failure, and without one it does send every recorded frame |
| `StreamClient.NeedMissesHeader` | firmware/core/src/net/stream_client.c:43-53 | for every configuration the size the client checks for can be met by a scratch in which no header fits |
| `StreamClient.RunSession` | firmware/core/src/net/stream_client.c:35-99 | in every run: the wire holds completed messages in protocol order (header, one chunk per frame read, terminator) plus at most a proper prefix of the next one; the frames read are a prefix of the recorded ones, and all of them once the terminator is out; a session without close or failure sends all of it and times out; the exact number of polls at a timeout and at an early close; SERVER_CLOSED exactly when a poll saw 0; ERROR exactly for a zero frame size, a too small scratch or a failed call whose result is not ignored; no encode fails |
| `StreamClient.SentPrefix` | firmware/core/src/net/stream_client.c:48-98 | whatever was sent is a prefix of the whole stream of the frames read |
| `StreamClient.Delivered` | firmware/core/src/net/stream_client.c:67-84 | client and server together: a session that finalised leaves the server complete with exactly the frames read, however the network cuts the bytes |
| `StreamClient.RecordedWhole` | firmware/core/src/net/stream_client.c:58-71 | if no frame is empty or larger than the requested size, the recording is the first max_chunks frames of the script, uncut |
| `StreamClient.SessionDelivers` | firmware/core/src/net/stream_client.c:48-98 | so a finalised session leaves the server complete with exactly those frames, however the network cuts the bytes |
| `StreamClient.Interrupted` | firmware/core/src/net/stream_client.c:86-91 | a session cut anywhere leaves the server without error and with a prefix of the recorded audio |
| `Quant.NudgeIsHalfUp` | firmware/core/src/nn/quant.c:9-10 | the nudge and the truncating division together are floor((ab + 2^30) / 2^31), for both signs |
| `Quant.HighMulExact` | firmware/core/src/nn/quant.c:5-12 | exactly that rounding on all 32-bit inputs, except the one saturating corner |
| `Quant.ProductBound` | firmware/core/src/nn/quant.c:8-11 | the 64-bit product never exceeds 2^62, and apart from the corner of two INT32_MIN it stays 2^31 below, so that its rounded high half fits 32 bits |
| `Quant.PotIsHalfAway` | firmware/core/src/nn/quant.c:14-23 | the masked shift rounds to nearest with halves away from zero, for every exponent |
| `Quant.RequantizationError` | firmware/core/src/nn/quant.c:5-31 | the result of a right shift is within 2^(30+r) + 2^30 of the exact quotient scaled by 2^(31+r), for every multiplier |
| `Quant.LeftShiftError` | firmware/core/src/nn/quant.c:25-31 | the result of a left shift by s is within 2^30 of acc * 2^s * multiplier, scaled by 2^31 |
| `Quant.RequantizeNearest` | firmware/core/src/nn/quant.c:51-58 | the output lies in [lo, hi] and no number there is nearer to the rescaled accumulator plus zero point; inside the range it is that number |
| `Quant.OutputError` | firmware/core/src/nn/quant.c:51-58 | so an output the clamp leaves alone is within the same bound of acc * multiplier / 2^(31+r) + zp |
| `Quant.MultiplyMonotone` | firmware/core/src/nn/quant.c:25-31 | a larger accumulator never gives a smaller result, for either shift direction |
| `Quant.MultiplyZero` | firmware/core/src/nn/quant.c:25-31 | a zero accumulator stays zero |
| `Quant.MultiplyShrinks` | firmware/core/src/nn/quant.c:25-31 | the result is never larger in magnitude than the left-shifted accumulator |
| `Quant.ReluFolds` | firmware/core/src/nn/quant.c:51-58 | clamping at the output zero point is the same as applying max(acc, 0) first |
| `PyQuant.ToInt32Exact` | kws-framework/kwslib/quant.py:15-18 | the mask keeps exactly the 32-bit values and always lands in range |
| `PyQuant.HighAgrees` | kws-framework/kwslib/quant.py:27-33 | the Python high multiplication equals the C one on all 32-bit inputs |
| `PyQuant.MultiplyAgrees` | kws-framework/kwslib/quant.py:46-51 | the Python multiplier equals the C one whenever the left shift does not overflow |
| `PyQuant.RequantizeAgrees` | kws-framework/kwslib/quant.py:66-74 | and so does the requantization |
| `Tensors.FlattenAt` | firmware/core/src/nn/kernels.c:48 | row-major layout: element (i, j) of an n by m matrix lies at i*m + j |
| `Tensors.Flat3At` | firmware/core/src/nn/kernels.c:48 | the NHWC offset (y*w + x)*c + k addresses element (y, x, k) and is in bounds |
| `Tensors.Flat4At` | firmware/core/src/nn/kernels.c:50 | the filter offset ((o*kh + fy)*kw + fx)*ic + k addresses element (o, fy, fx, k) and is in bounds |
| `PyKernels.FullyConnected` | kws-framework/kwslib/kernels.py:14-26 | each output is the requantized bias plus the full dot product |
| `PyKernels.ConvAccumulate` | kws-framework/kwslib/kernels.py:41-49 | the nested loops compute bias plus the sum over all taps, with padding equal to the zero point |
| `PyKernels.Conv2d` | kws-framework/kwslib/kernels.py:29-52 | the whole output tensor, cell by cell, is the layer's reference sum |
| `PyKernels.DepthwiseAccumulate` | kws-framework/kwslib/kernels.py:66-73 | the nested loops compute bias plus the sum over one channel's taps |
| `PyKernels.DepthwiseConv2d` | kws-framework/kwslib/kernels.py:55-76 | the whole output tensor is the depthwise reference |
| `PyKernels.GlobalAvgPool` | kws-framework/kwslib/kernels.py:79-91 | each channel is the requantized sum of its differences from the zero point |
| `KernelMeaning.PositionsExact` | kws-framework/kwslib/kernels.py:35-39 | an output position exists if and only if its window fits the padded input |
| `KernelMeaning.ConvBiasOnly` | kws-framework/kwslib/kernels.py:41-49 | with zero weights the accumulator is the bias |
| `KernelMeaning.ConvDelta` | kws-framework/kwslib/kernels.py:41-49 | a filter with a single 1 at (k, l, c) adds the input at (y*stride - pad + k, x*stride - pad + l, c) less the zero point, or nothing in the padding |
| `KernelMeaning.DwDelta` | kws-framework/kwslib/kernels.py:66-73 | the same for a depthwise filter, reading its own channel |
| `KernelMeaning.DenseDelta` | kws-framework/kwslib/kernels.py:21-23 | a dense row with a single 1 adds that input less the zero point |
| `KernelMeaning.PoolDelta` | kws-framework/kwslib/kernels.py:85-88 | every position of a channel counts once in its pooled sum |
| `KernelMeaning.ZeroGivesZeroPoint` | kws-framework/kwslib/quant.py:66-74 | a zero accumulator is requantized to the zero point |
| `KernelMeaning.SilentConv` | kws-framework/kwslib/kernels.py:29-52 | an input that is its zero point everywhere gives an output that is its zero point everywhere, borders included, whatever the weights |
| `KernelMeaning.SilentDw` | kws-framework/kwslib/kernels.py:55-76 | the same for the depthwise layer |
| `KernelMeaning.SilentPool` | kws-framework/kwslib/kernels.py:79-91 | the same for the pool |
| `KernelMeaning.SilentDense` | kws-framework/kwslib/kernels.py:14-26 | the same for the dense layer |
| `KernelMeaning.ConvWithin` | kws-framework/kwslib/kernels.py:50-51 | every entry lies within the clamp of the layer |
| `Kernels.AccumulatorFits` | firmware/core/src/nn/kernels.c:40-57 | under the bound |bias| + taps*term (shifted) no accumulator, left shift or zero-point addition leaves 32 bits; a term is 255*128 for a product and 255 for a pooled difference |
| `Kernels.ReadPadded` | firmware/core/src/nn/kernels.c:45-49 | the flat offset reads the tensor element, or the zero point in the padding |
| `Kernels.ConvTapLoop` | firmware/core/src/nn/kernels.c:46-52 | the innermost loop adds exactly the channel sum of one tap and stays within the bound |
| `Kernels.ConvAccumulate` | firmware/core/src/nn/kernels.c:40-54 | the 32-bit accumulator holds the reference sum and no partial sum overflows |
| `Kernels.ConvPixelInto` | firmware/core/src/nn/kernels.c:39-57 | one pixel's channels are written where the layout puts them and nothing else changes |
| `Kernels.ConvRowInto` | firmware/core/src/nn/kernels.c:38-59 | one output row is added to the flat map |
| `Kernels.SizesAgree` | firmware/core/src/nn/kernels.c:32-33 | the truncating size formula of C equals the flooring one of Python if and only if the filter fits the padded input or misses it by a multiple of the stride |
| `Kernels.SizesDiffer` | firmware/core/src/nn/kernels.c:32-33 | a filter that does not fit, for which C computes one position and Python none |
| `Kernels.FitsIffNonEmpty` | kws-framework/kwslib/kernels.py:35-36 | Python computes at least one position if and only if the filter fits, and then the sizes agree |
| `Kernels.Conv2d` | firmware/core/src/nn/kernels.c:24-61 | the flat output is the layout of the reference convolution, the sizes are the reference sizes, nothing behind it is written |
| `Kernels.DwAccumulate` | firmware/core/src/nn/kernels.c:79-91 | the depthwise accumulator is the reference sum and no partial sum overflows |
| `Kernels.DwPixelInto` | firmware/core/src/nn/kernels.c:78-95 | one depthwise pixel is written where the layout puts it and nothing else changes |
| `Kernels.DwRowInto` | firmware/core/src/nn/kernels.c:77-97 | one output row is added to the flat map |
| `Kernels.DepthwiseConv2d` | firmware/core/src/nn/kernels.c:63-98 | the flat output is the layout of the reference depthwise convolution |
| `Kernels.PoolAccumulate` | firmware/core/src/nn/kernels.c:107-112 | the pooled accumulator is the reference sum and no partial sum overflows |
| `Kernels.GlobalAvgPool` | firmware/core/src/nn/kernels.c:100-118 | the channel means equal the reference |
| `Kernels.DenseAccumulate` | firmware/core/src/nn/kernels.c:14-18 | the dense accumulator is the reference dot product and no partial sum overflows |
| `Kernels.FullyConnected` | firmware/core/src/nn/kernels.c:7-22 | the logits equal the reference |
| `Kernels.Argmax` | firmware/core/src/nn/kernels.c:120-129 | the first index that attains the maximum |
| `Kernels.DenseFits` | firmware/core/src/nn/kernels.c:14-20 | every accumulator of a fitting dense layer meets the conditions of the requantization, and its logit is that requantization |
| `Kernels.LargestAccumulatorWins` | firmware/core/src/nn/kernels.c:7-22 | for a non-negative multiplier, the class with the largest accumulator of the dense layer attains the maximum logit of its outputs, the one argmax reports |
| `KwsModel.PyInfer` | kws-framework/kwslib/infer_int8.py:13-39 | the Python pipeline computes the composition of the reference layers |
| `KwsModel.ChannelsFit` | firmware/core/src/kws_model.c:52-56 | the pooled vector always fits the scratch buffer although its size is never checked |
| `KwsModel.Engine.constructor` | firmware/core/src/kws_model.c:8-9 | two separate scratch buffers of the fixed size |
| `KwsModel.Engine.Infer` | firmware/core/src/kws_model.c:6-63 | false exactly when a feature map exceeds the scratch size, with the logits untouched; otherwise exactly the Python reference logits, whatever the two scratch buffers held before, every access in bounds and no layer reading the buffer it writes |
| `KwsMeaning.ZeroInZeroOut` | firmware/core/src/kws_model.c:6-63 | zero in, zero out: without biases an input that is its zero point everywhere gives the output zero point for every class, for all weights and multipliers |
| `KwsMeaning.Rectified` | firmware/core/src/kws_model.c:11-63 | the feature map handed to the pool is rectified at its zero point and the logits are int8 |
| `KwsMeaning.ConvPath` | firmware/core/src/kws_model.c:18-22 | which input a single convolution tap reads through the first layer, and with which bias, multiplier, shift and zero points it is rescaled |
| `KwsMeaning.BlockPath` | firmware/core/src/kws_model.c:27-50 | the same through the depthwise and pointwise layers of a block |
| `KwsMeaning.HeadPath` | firmware/core/src/kws_model.c:52-62 | the same from one feature-map entry through the pool and the dense layer to a logit |
| `ConvAdjoint.PositionFits` | kws-framework/kwslib/layers.py:32-34 | every slice of the padded input is inside it |
| `ConvAdjoint.PositionsExact` | kws-framework/kwslib/layers.py:29-34 | and every position whose window fits is computed: i < oh if and only if i*stride + kh <= h + 2*pad, and the same for the width |
| `ConvAdjoint.DeltaResponse` | kws-framework/kwslib/layers.py:28-35 | a filter with a single 1 at (k, l, c) reads the input at (oy*stride + k - pad, ox*stride + l - pad, c), or zero in the padding |
| `ConvAdjoint.GatherIsWindow` | kws-framework/kwslib/layers.py:54-55 | the scattered gradient of one output position, paired with the input, equals that output paired with its gradient |
| `ConvAdjoint.CropDot` | kws-framework/kwslib/layers.py:28-56 | cropping is adjoint to padding |
| `ConvAdjoint.InputAdjoint` | kws-framework/kwslib/layers.py:40-57 | <dx, x> = <dout, conv(x, w)> for every shape, stride and pad |
| `ConvAdjoint.WeightAdjoint` | kws-framework/kwslib/layers.py:40-57 | <dw, w> = <dout, conv(x, w)> for every shape, stride and pad |
| `Layers.Conv2dForward` | kws-framework/kwslib/layers.py:25-37 | the position loop computes the convolution of the padded input plus bias |
| `Layers.Conv2dBackward` | kws-framework/kwslib/layers.py:40-57 | the accumulating loop computes the cropped input gradient, the weight gradient and the bias gradient as sums over all positions |
| `Layers.BiasAdjoint` | kws-framework/kwslib/layers.py:47 | db is the adjoint of adding the bias |
| `Layers.ExactGradient` | kws-framework/kwslib/layers.py:40-57 | the change of <dout, conv> for any finite change of the input, or of the weights, is exactly the gradient paired with the change |
| `Layers.DwSumIsConv` | kws-framework/kwslib/layers.py:71-72 | a depthwise output is a single-channel convolution of its channel |
| `Layers.DepthwiseForward` | kws-framework/kwslib/layers.py:62-74 | the position loop computes the depthwise convolution plus bias |
| `Layers.DwDeltaResponse` | kws-framework/kwslib/layers.py:62-74 | a depthwise filter with a single 1 reads its channel at the shifted position, or zero in the padding |
| `Layers.DepthwiseBackward` | kws-framework/kwslib/layers.py:77-94 | the accumulating loop computes the depthwise gradients as sums over all positions |
| `Layers.ChannelAdjoint` | kws-framework/kwslib/layers.py:77-94 | both depthwise gradients are adjoint to the output in each channel separately |
| `Layers.DepthwiseAdjoint` | kws-framework/kwslib/layers.py:77-94 | <dx, x> = <dw, w> = <dout, depthwise(x, w)> over all images and channels |
| `Layers.DenseAdjoint` | kws-framework/kwslib/layers.py:112-121 | <dx, x> = <dw, w> = <dout, x w^T> for the dense layer |
| `Layers.DenseBiasAdjoint` | kws-framework/kwslib/layers.py:120 | db of the dense layer is the adjoint of adding the bias to every row |
| `Layers.DenseDeltaResponse` | kws-framework/kwslib/layers.py:112-113 | a dense row with a single 1 gives that input plus the bias |
| `Layers.PoolAdjoint` | kws-framework/kwslib/layers.py:99-107 | the same for global average pooling, in each image and channel |
| `Layers.PoolConstant` | kws-framework/kwslib/layers.py:99-101 | the average of a constant channel is the constant |
| `SttSpec.SamplesAppend` | server/src/stt_stub.c:40-57 | splitting the samples into feeds does not change the state |
| `SttSpec.Segmentation` | server/src/stt_stub.c:20-57 | after any stream, next_script is the smaller of script_count and the number of closed utterances with enough loud samples, where an utterance is defined by the stream alone (closed by a gap of hang quiet samples); the run counters are those of the open utterance |
| `SttSpec.QueueAfter` | server/src/stt_stub.c:5-28 | the pending queue is the first three of what was queued and what has been pushed since, in order, clipped |
| `SttSpec.QueueIgnored` | server/src/stt_stub.c:20-57 | pending transcripts never influence the segmentation |
| `SttSpec.RoundsAreOneStream` | server/src/stt_stub.c:5-74 | a run with a drain after each feed segments as one undrained pass over the whole stream |
| `SttSpec.ClosedByRounds` | server/src/stt_stub.c:20-57 | so the script counter after such a run is the number of long enough utterances in the concatenated samples, capped by the scripts |
| `SttSpec.Lossless` | server/src/stt_stub.c:5-74 | over a whole run with a full drain after each feed, the drained transcripts are those of all scripted utterances the stream closes, in order, if and only if the samples of no round close more than three of them |
| `SttSpec.PollsInOrder` | server/src/stt_stub.c:5-74 | for any interleaving of feeds and single polls, the polled transcripts followed by the pending ones are the closed scripts in order with some left out, as many as found the ring full |
| `SttSpec.NothingLost` | server/src/stt_stub.c:5-74 | and they are all of them if and only if none found it full |
| `SttSpec.PollsIgnored` | server/src/stt_stub.c:40-74 | polls do not disturb the segmentation |
| `SttStub.Stub.constructor` | server/src/stt_stub.c:76-85 | an empty machine; a zero hangover counts as one |
| `SttStub.Stub.Reset` | server/src/stt_stub.c:30-38 | back to the initial machine |
| `SttStub.SlotsPush` | server/src/stt_stub.c:5-18 | writing the tail slot of a ring that is not full appends to its contents across the wrap |
| `SttSpec.PushWhole` | server/src/stt_stub.c:5-18 | three transcripts of up to 127 characters are held whole, a fourth is lost |
| `SttStub.Stub.PushPending` | server/src/stt_stub.c:5-18 | appends the clipped text, or drops it when three are pending |
| `SttStub.Stub.EndUtterance` | server/src/stt_stub.c:20-28 | the closing step of the machine |
| `SttStub.Stub.Feed` | server/src/stt_stub.c:40-57 | the in-place loop computes the machine run over the loud/quiet samples |
| `SttStub.LoudExact` | server/src/stt_stub.c:45-47 | a sample is loud exactly when it lies outside [-thresh, thresh] |
| `SttStub.Stub.Poll` | server/src/stt_stub.c:59-74 | false exactly when nothing is pending; otherwise the oldest transcript, clipped to the caller's buffer, leaves the queue |
| `Debounce.Machine.constructor` | server/src/debounce.c:3-12 | a listening timer with all marks at now |
| `Debounce.Machine.OnSpeech` | server/src/debounce.c:14-20 | moves the speech mark unless cut |
| `Debounce.Machine.OnCommand` | server/src/debounce.c:22-31 | moves both marks and waits unless cut |
| `Debounce.Machine.Tick` | server/src/debounce.c:39-65 | the three limits in order of precedence; true exactly in the cut state |
| `Debounce.ElapsedBound` | server/src/debounce.c:33-37 | the 32-bit difference never exceeds the true elapsed time and equals it below 2^32 |
| `Debounce.CutIsFinal` | server/src/debounce.c:14-43 | after a cut no event changes the state, the reason or a mark |
| `Debounce.ReasonsJustified` | server/src/debounce.c:39-65 | over every run of true times, wrap-around included, each reason implies at least that much true time since start, last command or last speech |
| `Debounce.TickDecides` | server/src/debounce.c:39-65 | a tick of a session shorter than 2^32 ms cuts exactly when one of the true limits is reached, for the session limit before the debounce and the debounce before silence, and otherwise changes nothing |
| `Debounce.DueLimitCuts` | server/src/debounce.c:39-65 | at any age: a tick that finds a limit reached, less than 2^32 ms after its mark, leaves the timer cut |
| `Debounce.DebounceEnds` | server/src/debounce.c:51-56 | after the last command the session is cut by the first tick that falls within the gap after the debounce time, whatever speech comes in between |
| `Debounce.WaitingIffHeard` | server/src/debounce.c:22-31 | an uncut timer waits for the debounce exactly when a command has been heard |
| `Debounce.CommandsCounted` | server/src/debounce.c:22-31 | and its count is the number of commands heard |
| `Debounce.WrapInvisible` | server/src/debounce.c:33-65 | a session shorter than 2^32 ms makes the decisions of unbounded time |
| `Debounce.EverySessionEnds` | server/src/debounce.c:39-49 | with ticks at most G apart and max_session + G < 2^32 every session is cut by start + max_session + G |
| `Debounce.SlowTicksMiss` | server/src/debounce.c:33-49 | that bound is exact: from max_session + G = 2^32 on there is a run whose ticks all miss the limit |
| `Debounce.ShiftInvariant` | server/src/debounce.c:33-65 | shifting all times by a constant changes no decision, at any wrap |
| `Vad.FrameEnergy` | server/src/vad.c:3-14 | the loop returns the mean magnitude rounded down, at most 32768 |
| `Vad.MagnitudeExact` | server/src/vad.c:7-11 | the magnitude is the larger of the sample and its negation |
| `Vad.ConstantMean` | server/src/vad.c:3-14 | a frame of samples v and -v has energy v, whatever the signs |
| `Vad.BlockedClose` | server/src/session.c:30-46 | the blocked energy is at most the exact sum and falls short of it by less than the number of samples |
| `Vad.BlockedMean` | server/src/session.c:30-52 | the mean of the blocked energy is the exact mean E or E-1, exactly E up to 256 samples, and the 64-bit sum cannot overflow below 2^48 samples |
| `Vad.OneLessOccurs` | server/src/session.c:30-52 | a payload of 257 samples whose blocked mean is E-1 |
| `Intent.ContainsCi` | server/src/intent.c:6-23 | true exactly when the needle occurs somewhere, ignoring ASCII case |
| `Intent.NextToken` | server/src/intent.c:29-37 | the pointer loop visits the maximal space-free runs one by one and skips none |
| `Intent.AllKeywordsPresent` | server/src/intent.c:25-43 | true exactly when every space-separated token occurs in the transcript |
| `Intent.IntentMatch` | server/src/intent.c:45-64 | the id and the name of the first entry whose tokens all occur; INTENT_NONE and no name when there is none |
| `Intent.CaseInsensitive` | server/src/intent.c:6-23 | changing letter case in transcript and keyword never changes whether it occurs |
| `PcmSpans.SplitExact` | server/src/session.c:20-30 | two given spans decode as their concatenation if and only if the first has even length, or nothing follows it, or an even number of bytes follows that all equal the byte before them |
| `PcmSpans.TwoSpans` | server/src/session.c:20-30 | spans of two given lengths decode as their concatenation whatever they contain if and only if the first length is even or the second zero |
| `PcmSpans.SpansExact` | server/src/session.c:20-30 | the same for any number of spans: if and only if no bytes follow a span of odd length |
| `PcmSpans.AlignedSpans` | server/src/session.c:20-30 | spans of such lengths decode as their concatenation |
| `PcmSpans.Shifted` | server/src/session.c:20-30 | for all other lengths, spans that do not |
| `PcmSpans.DecodeEncode` | server/src/session.c:20-30 | samples written low byte first, in two's complement, are decoded as themselves |
| `PcmSpans.EncodeDecode` | server/src/session.c:20-30 | and decoded samples written again are the whole pairs of the payload |
| `Session.Session.constructor` | server/src/session.c:7-18 | a fresh session: reset backend, listening timer, nothing heard |
| `Session.Session.FeedBlocks` | server/src/session.c:35-46 | the 256-sample blocks feed the backend as one payload would, and accumulate the blocked energy |
| `Session.Session.OnPcm` | server/src/session.c:28-69 | the whole step: segmentation over all samples, the speech mark by the blocked mean, then every pending transcript in order into intents and the timer; the queue is left empty |
| `Session.Session.Drain` | server/src/session.c:55-69 | every pending transcript is heard once, in order |
| `Session.VoicedMean` | server/src/session.c:49-53 | a payload is voice if its exact mean E is above the threshold by more than one, and only if E is above it; up to 256 samples exactly then; an empty one never |
| `Session.NewsAre` | server/src/session.c:55-69 | after a drain the last transcript is the last one drained, the intent and name are those of the last recognised one, and the command count grew by the number recognised |
| `Session.Session.HearOne` | server/src/session.c:58-67 | the last transcript is replaced; a recognised intent and its name are kept and count as a command |
| `Session.Session.Tick` | server/src/session.c:71-74 | the debounce decision; the backend and the news are untouched |
| `SessionRuns.SegmentsSamples` | server/src/session.c:28-74 | after any sequence of payloads and ticks the backend has segmented all decoded samples in one pass |
| `SessionRuns.SegmentsBytes` | server/src/session.c:28-74 | if no bytes follow a span of odd length, it has segmented the concatenated bytes |
| `SessionRuns.SplitInvisible` | server/src/session.c:28-74 | two sessions that get the same bytes in such spans have the same run counters and script counter, whenever spans and ticks come |
| `SessionRuns.HearsEmitted` | server/src/session.c:55-69 | last transcript, last intent and name, and command count are those of hearing everything the backend emitted, in order |
| `SessionRuns.HearsEverything` | server/src/session.c:55-69 | if no payload closes more than three scripted utterances, that is every scripted utterance the samples closed |
| `SessionRuns.TimerIsRun` | server/src/session.c:28-74 | after any sequence of payloads and ticks the timer is that of one run of speech, command and tick events |
| `SessionRuns.EventsInOrder` | server/src/session.c:28-74 | calls in order of time give events in order of time |
| `SessionRuns.CutsJustified` | server/src/session.c:28-74 | no session is cut before the time its reason names has passed in true time |
| `SessionRuns.TickDecidesSession` | server/src/session.c:71-74 | a tick of a session decides by the true times since its start, its last command and its last speech or command, in that order of precedence |
| `SessionRuns.DueLimitCutsSession` | server/src/session.c:71-74 | and leaves no reached limit uncut |
| `SessionRuns.VoiceMarks` | server/src/session.c:49-53 | a voiced payload moves the speech mark to its own time |
| `SessionRuns.QuietPayload` | server/src/session.c:49-69 | a payload that is no voice and brings no command leaves the timer alone |
| `SessionRuns.SessionEnds` | server/src/session.c:28-74 | with ticks at most G apart and max_session + G < 2^32 every session is cut, whatever audio and commands arrive |
| `RingBuf.PutContents` | firmware/core/src/ringbuf.c:27-38 | two copies around the wrap append to the queue |
| `RingBuf.DropContents` | firmware/core/src/ringbuf.c:40-45 | advancing the head removes the oldest bytes and keeps tail = head + count |
| `RingBuf.RingBuf.constructor` | firmware/core/src/ringbuf.c:5-12 | an empty queue over the given storage |
| `RingBuf.RingBuf.Reset` | firmware/core/src/ringbuf.c:14-19 | an empty queue |
| `RingBuf.RingBuf.Put` | firmware/core/src/ringbuf.c:27-38 | the queue gains the bytes; storage beyond cap is untouched |
| `RingBuf.RingBuf.Drop` | firmware/core/src/ringbuf.c:40-45 | the queue loses its first n bytes |
| `RingBuf.RingBuf.Write` | firmware/core/src/ringbuf.c:47-58 | appends the longest prefix that fits and returns its length |
| `RingBuf.RingBuf.WriteOverwrite` | firmware/core/src/ringbuf.c:60-85 | leaves the last cap bytes of old + data; dropped + new size = old size + length, and dropped counts the bytes that left |
| `RingBuf.RingBuf.CopyOut` | firmware/core/src/ringbuf.c:93-99 | two copies around the wrap deliver the oldest n bytes |
| `RingBuf.RingBuf.Peek` | firmware/core/src/ringbuf.c:104-118 | delivers the oldest bytes and changes nothing |
| `RingBuf.RingBuf.Read` | firmware/core/src/ringbuf.c:87-102 | delivers the oldest bytes and removes exactly them |
| `RingBuf.Conservation` | firmware/core/src/ringbuf.c:27-102 | over any history of writes, overwriting writes and reads, the bytes that left (read or dropped) followed by the stored ones are the bytes that entered |
| `RingBuf.Fifo` | firmware/core/src/ringbuf.c:27-102 | over any history of writes and reads, the bytes read followed by the stored ones are the bytes accepted |
| `RingBuf.OverwriteKeepsLatest` | firmware/core/src/ringbuf.c:60-85 | after any run of overwriting writes the buffer holds exactly the last cap bytes ever written |
| `Fsm.Machine.constructor` | firmware/core/src/fsm.c:3-11 | boot state, all counters zero |
| `Fsm.Machine.Wake` | firmware/core/src/fsm.c:13-31 | state, remembered cause and action for each wake cause |
| `Fsm.Machine.Dispatch` | firmware/core/src/fsm.c:33-87 | the new state, counters (32-bit) and action for every state and event |
| `App.Runner.constructor` | firmware/core/src/app.c:5-11 | a fresh runner |
| `App.Runner.WakeCause` | firmware/core/src/power.c:19-26 | the backend's answer, or power-on without one |
| `App.Runner.EnterDeepSleep` | firmware/core/src/power.c:28-41 | counted except in STAY_AWAKE |
| `App.Runner.TakeTurn` | firmware/core/src/app.c:25-42 | one turn of the loop calls exactly the hook the action asks for |
| `App.TurnAdvances` | firmware/core/src/app.c:23-52 | each turn strictly lowers the rank of the action, whatever the hook answers, so the loop ends |
| `App.Runner.RunCycle` | firmware/core/src/app.c:18-53 | one cycle for arbitrary hooks: the loop passes each stage at most once and in order |
| `App.Runner.Run` | firmware/core/src/app.c:55-63 | max_cycles cycles, or one in REAL mode |
| `App.RestsIffLegal` | firmware/core/src/app.c:18-53 | from rest a cycle ends in SLEEP or ERROR if and only if every hook it consulted answered within its contract |
| `App.StuckForever` | firmware/core/src/fsm.c:42-86 | after an answer outside the contract no later cycle changes the reducer or calls a hook |
| `App.BadHookSticks` | firmware/core/src/app.c:26-31 | a keyword hook that answers the empty event leaves the device in the middle of the protocol after the first and every later cycle |
| `App.FalseWakesAreRejects` | firmware/core/src/app.c:26-32 | over every run false_wake_count equals reject_count, for all hooks |
| `App.SleepsAreCycles` | firmware/core/src/power.c:28-41 | over every run sleep_count equals cycles, or 0 in STAY_AWAKE |
| `App.OneOutcome` | firmware/core/src/app.c:18-53 | a legal cycle is exactly one of: immediate sleep, reject, session, error |
| `App.CycleTable` | firmware/core/src/app.c:18-53 | what a cycle from rest does for any hooks: which hook each wake cause and answer consults, which counter each answer moves, and where the reducer ends |
| `App.BareRunner` | firmware/core/src/app.c:18-53 | a runner without a wake source or hooks wakes, rejects and sleeps |
| `App.Accounting` | firmware/core/src/app.c:18-63 | with legal hooks, over every run: cycles = rejects + sessions + errors + immediate sleeps, modulo 2^32 |

## Left out

- `Fft.FftRadix2`: does not model float rounding or `cosf`/`sinf` values; `len <<= 1` is on unbounded integers, so the overflow after n = 2^30 is not modelled.
- `Fft.DirectionsCancel`: exact arithmetic, for any family of roots with the stated identities.
- `Quant.RequantizationError`: the pair of two INT32_MIN operands, which saturates, is excluded; no quantized multiplier is negative.
- `PyQuant.MultiplyAgrees`: an overflowing left shift is required not to happen, because C leaves it undefined where Python wraps.
- `KwsModel.Engine.Infer`: every layer has an output position, which by `Kernels.FitsIffNonEmpty` is to say that its filter fits the padded input; with an empty map the unchecked pooled vector could exceed the scratch. Accumulators must fit 32 bits; the overflow of the size products themselves (`int` and `size_t`) is not modelled.
- `KwsModel.PyInfer`: numpy's int8 arrays are sequences of integers; the reshape adds a channel axis of one.
- `HttpIngest.ParseChunkSize`: a size that wraps the word is taken modulo the word, as the code does; a wrapped size equal to SIZE_MAX is malformed, as in the code. Round trips are for payloads shorter than SIZE_MAX.
- `HttpIngest.Parser.Feed`: the two callbacks are always present and are logs of what they were given; the pointer value of an unchanged field is not modelled.
- `StreamProto.BuildRequestHeader`: null pointers are not modelled; strings end before their NUL.
- `StreamClient.RunSession`: the bytes a poll receives are ignored, as in the code, and not represented; null pointers are not modelled; a send that takes no byte is allowed as long as the script is finite.
- `Layers.Conv2dForward`: tensors are total functions of their indices, real-valued, and `+=` on a slice makes a new tensor, so aliasing between arrays is not represented. The same holds for the other passes.
- `Layers.ExactGradient`: stated without the bias, whose part is `Layers.BiasAdjoint`.
- `Debounce.EverySessionEnds`: needs a non-zero max_session; a zero limit is switched off in the code.
- `Session.Session.OnPcm`: the backend is the stub and always present.
- `SttSpec.Lossless`: the hangover is at least one sample, as the constructor makes it.
- `SessionRuns.TimerIsRun`: stated for every sequence of payload and tick calls; the loop in `server/src/main.c` that makes the calls is not modelled.
- `Intent.ContainsCi`: `tolower` is that of the C locale.
- `App.Runner.Run`: entering deep sleep returns in the model, also in REAL mode, where the runner then stops.
- `Fsm.Machine.Dispatch`: values outside the enumerations are not modelled.
- `nn_quantize_multiplier`, softmax, `kws_decide`, `kws_model_run`, the mel spectrogram and the front end: floating point without an exact claim.
- ReLU and softmax cross-entropy in `layers.py`, the optimiser, training and calibration: pointwise or statistical code.
- `stt_whisper.c`: its segmentation and ring repeat the stub's; the recogniser is not part of this model.
- `server/src/main.c`, `firmware/port/esp`, `firmware/main/app_main.c`, `tools/host`: sockets, Wi-Fi, I2S, clocks and files.
- The `*_str` helpers, configuration parsing, `codegen.py`, `dataset.py` and the generated headers: text and data.
