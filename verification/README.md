# HWS capture driver: verified model

A Dafny model of the core of a Linux driver for a PCIe HDMI capture card. The
card writes each video frame into memory as four quarters and raises one event
per half frame. The driver hands the frames to any number of consumers: by
copying the halves, through line doubling and scaling when the sizes differ,
or by letting the card write an app's buffer directly (zero-copy). Audio
arrives in packets that pass through a queue of 8 into a ring buffer.

The card and the driver run side by side. The model describes them as one step
system and proves what holds over every run of it.

## How the modules fit together

* `Protocol` is the step system of the card and the driver's zero-copy state:
  the card starts and ends runs of quarter pairs, events wait, get lost or are
  handled, the driver repoints pairs, stops zero-copy, picks and releases
  buffers. `ZeroCopy` holds the driver's part as functions. `FrameHistory`,
  `Progress` and `Necessity` hold what is proved of its runs.
* `Frames` is the specification of frame assembly: consumers, queues, held
  buffers, halves, HDCP, sequence numbers, STREAMON/STREAMOFF, size changes.
  `Driver` lists its operations. `Delivery`, `StreamOff`, `Bounds` hold the
  invariants; `Effects` says what operations leave alone.
* `World` joins both with the memory they share, and proves that the whole
  system refines `Protocol`. `CardRoom` shows that a buffer the card is pointed
  at stays large enough for all it can write. `Events` says in plain terms when
  a half arrives, where its bytes are and how a frame ends. `Marks`, `Sequence`,
  `Payload`, `Assembling` and `FrameLog` lead to `Guarantees`, what the frames
  apps receive contain, `Consumers` to `Streaming`, that they receive them, and
  `Tally` to the counts they keep;
  `TornFrame` is the way in which one of these guarantees can be lost.
* `Capture.Channel` is the driver's state as it is kept and updated, with the
  loops of the source; each method is proved against the specification
  functions.
* `Quarters`, `CardAddr` (lengths and addresses), `LineDouble`, `Scale`,
  `Scaler`, `Rendering` (pixels), `RateWindow`, `Intervals` (frame rate), `AudioQueue`,
  `AudioStream` (audio), `EventCounter` (wrapping counters) are proved on
  their own and used by the above where they meet.

Three assumptions about time stand for what the driver infers from clocks.
They are preconditions of the steps of `Protocol` (`Assumed`):

* (a) a register write judged in time precedes the next run of its pair;
* (b) when a pair's registers are rewritten during a run of that pair, no
  event of the pair raised earlier is still unhandled;
* (c) `card_stopped` means that no run is in progress.

In `World` a run writes from the start of either of its quarters as far as
register 9 lets it, and the programmed lengths change only while no run is in
progress.

The engine counts one user for each STREAMON until its own STREAMOFF has ended,
so there are at least as many users as consumers that stream.

Some state in the specification is history that the driver does not store: the
runs that took a buffer, the last top half read, the log of completed buffers,
the payload shown under each frame number. No branch of an operation depends on
it.

## Results that differ from what the source or its documents say

* With zero-copy, a lost bottom half lets a torn frame complete as whole
  (`Necessity.LostBottomTearsFrame`): the top half that follows keeps the frame
  in progress, so its pair runs into it a second time. In every such state of
  the driver the next two halves hand the buffer back as DONE
  (`TornFrame.LostBottomStillCompletes`). `DoneIsOneFrame` gives the exact
  condition: no event of the buffer's runs was lost or discarded.
* The one-event mark of a late register write is enough only under assumption
  (b): `Necessity.BacklogBreaksSafety` is a run in which a backlog of two halves
  makes the driver hand back a buffer while the card writes it, and
  `LateMarkExact` gives the exact condition.
* `MemCopyFrame()` refuses some fields whose quarters of q bytes are shorter
  than a row, exactly those with q > 0, 2 * row > 3 * q and row other than 2 * q
  (`CutRowsJoinExactly`); such frames complete with an error.
* `All_VideoScaler()` reads past the source when it pads the height by an odd
  number of rows, or the width by an odd number of pixels while it uses the
  last source row, and at no other time (`ReadsInsideExact`). It is never more
  than a row and a pixel (`ReadsLittlePast`), which show in the output.
* `StartAudioCapture()` resets the reading side's place in the queue only. With
  the writing side at place k, the next n packets keep their order exactly when
  k + min(n, 8) is at most 8 (`StartKeepsOrderExactly`).
* The products in `hws_snap_interval()` and `hws_closest_interval()` wrap at 64
  bits. Snapping is right for all measurements below 41708333 + 2^64 / tol,
  rounded up, and wrong at that one (`SnapIsExact`); the other test is right
  while the error is below 2^64 / 100, rounded up (`ClosestIsExact`).
* The rate window divides by zero exactly when a frame end comes at the time of
  the one before it in an open window (`DividesByZeroExactly`).

## Model

| member | source | states |
|---|---|---|
| FrameHistory.HandedBackIsSafe | src/hws_video.c:1962-2114 | In every run of card and driver steps under (a)-(c), from the hand-back of a buffer until it is picked again no pair points at it and the card does not write it, in the run in progress or any later one |
| FrameHistory.DoneIsOneFrame | src/hws_video.c:2062-2085 | A zero-copy buffer completed DONE received exactly one run of each pair, both of one frame, if and only if no event of the runs it received was lost or discarded |
| Protocol.KeepsInv | src/hws_video.c:1985-2114 | Every step keeps: one place per held buffer, pairs point only at held buffers, events in order, and the buffer being written is still pointed at or carries a mark one event ahead with no event of its pair waiting |
| Protocol.ReleaseGuarded | src/hws_video.c:1962-1977 | Releasing never lets go of a buffer the card is writing |
| Protocol.ProgramRec | src/hws_video.c:1985-2014 | Repointing a pair changes the marks of that pair alone: away and free-after of the buffer it leaves, pointed of the one it enters, in time or one event later; every other record stays |
| Driver.InTimeExact | src/hws_video.c:2202-2206 | A register write counts as in time if and only if it came, with a nanosecond to spare, within half of each of the last two gaps between halves; never at the first two halves after a start |
| ZeroCopy.KeptPartition | src/hws_video.c:1967-1976 | Releasing splits the list: nothing is lost and nothing appears twice |
| Progress.ReleasedBySecondBottom | src/hws_video.c:1962-1977 | A buffer put on the release list is handed back no later than the second bottom half after that, if the halves handled alternate from the one that put it there on, whatever was lost before |
| Progress.RunLagged | src/hws_video.c:1996-2010 | The marks of a held buffer are at most one event ahead of their counters, and behind by no more than the halves handled since it was last free |
| EventCounter.EvBeforeIsOrder | src/hws_calc.h:162-170 | The wrapping comparison agrees with counters that never wrap whenever they differ by less than 2^31, and not at 2^31 ahead |
| Necessity.LostBottomTearsFrame | src/hws_video.c:2208-2213 | A concrete run of the step system in which one bottom half is lost and a buffer retired as whole holds a top half of one frame and a bottom half of the next |
| TornFrame.LostBottomStillCompletes | src/hws_video.c:2177-2343 | In any driver state in which the card is in the bottom half of a zero-copy frame, a top and then a bottom half in time make the half handler compute DONE and hand that buffer back with what the two halves read |
| Necessity.BacklogBreaksSafety | src/hws_video.c:2007-2010 | A concrete run with two unhandled halves hands back a buffer the card is writing; only assumption (b) fails in it |
| Necessity.LateMarkExact | src/hws_video.c:2009 | The mark of a late move outlasts everything raised so far if and only if none of that is of the pair |
| Marks.DoneIsFree | src/hws_video.c:2063-2085 | A frame that ends complete is past every mark of its buffer, so it is handed back by the half that ends it |
| Marks.KeepsMarked | src/hws_video.c:1985-2114 | Only failed buffers ever wait on the release list, while fewer than 2^31 top halves in a row come without a bottom half |
| World.HistoryIsRun | src/hws_video.c:2177-2343 | The whole system refines the step system: the zero-copy part of every history is one of its runs |
| World.CardLeavesOthersAlone | src/hws_video.c:1845-1862 | In every reachable state the card neither points at nor writes a buffer that an app has, that is queued, or that halves are copied to |
| World.OwnershipIsPartition | src/hws_video.c:1767-1843 | In every reachable state each buffer is in exactly one place, frame buffers are the consumers' held ones, in-flight counts are the numbers of buffers in flight, and completions match queueings |
| World.Projects | src/hws_video.c:2199-2213 | Every operation changes the zero-copy state as the step system says, or not at all |
| World.CardWritesLand | src/hws_video.c:1934-1960 | In every reachable state each byte a run can write, up to register 9 and one block past it, reaches its place in the buffer the run was pointed at, through the register of its quarter and the windows, and is inside the buffer |
| CardRoom.PointedOk | src/hws_video.c:2016-2060 | Every operation leaves the card pointed only at buffers fit for the longest run with the lengths and windows of then |
| Driver.KeepsWhole | src/hws_video.c:1767-2365 | Every operation keeps the ownership partition, the in-flight counts and one completion per queueing |
| Driver.HalfWhole | src/hws_video.c:2177-2343 | So does every half event, stale, lost, blanked, copied or failed |
| Delivery.HoldBuffersKeeps | src/hws_video.c:1782-1821 | Taking one buffer per consumer, the too small ones handed back, keeps them |
| Delivery.CompleteKeeps | src/hws_video.c:1766-1774 | Completing a buffer the driver has in hand keeps each buffer in exactly one place, in-flight counts equal to the buffers in flight, and one completion per queueing |
| Delivery.HoldGives | src/hws_video.c:1782-1821 | Exactly the consumers that want the frame and have a buffer give one, the first of their queue; one without misses the frame; a buffer that is too small or not mapped leaves the queue and is not held |
| Delivery.EveryNth | src/hws_video.c:1792-1801 | A consumer at a lower rate gives no buffer for the N - 1 frames after one it took, and one for every other number |
| StreamOff.StreamOffEndsEmpty | src/hws_video.c:1273-1328 | STREAMOFF through its timeout path: from then until the next STREAMON nothing of the consumer is in flight and every buffer came back once per queueing, whatever happened in between |
| StreamOff.StoppedTakesNone | src/hws_video.c:2092-2114 | Stopping zero-copy with the card stopped lets every buffer go |
| StreamOff.DrainedIsEmpty | src/hws_video.c:1291-1320 | A consumer with nothing queued, held or taken has in-flight count 0 and all its buffers |
| Guarantees.CompleteIsTwoHalves | src/hws_video.c:2215-2339 | Every buffer completed DONE other than a blue frame ends a frame: quarters 0-1 as they were in the two DMA buffers, or in the zero-copy buffer, at one top half that arrived, and quarters 2-3, cut to the frame, at the very next half handled, of the same geometry. A direct frame is these bytes; else the output is that picture scaled, an interlaced field with every row twice first; with HDCP at either half it is black. No copy was too late |
| Guarantees.CompleteShowsPixels | src/hws_video.c:2116-2144 | With VideoScaler() as the scaler, each pixel of such a frame is the one of the two halves that belongs there |
| Guarantees.ResizedFrames | src/hws_video.c:3895-3944 | From an accepted change of the input size to the next change, every frame completed DONE is of the new size |
| Guarantees.GeometryStays | src/hws_video.c:3915-3939 | The geometry and the programmed lengths are those of the last accepted change; a refused one changes neither |
| Guarantees.CompleteAtFrameEnd | src/hws_video.c:2226-2339 | Nothing else completes a buffer DONE: not a half that does not arrive, a bottom half without its top half, a stop, a size change, STREAMON or STREAMOFF |
| Guarantees.NoSignalIsBlue | src/hws_video.c:2345-2365 | Without signal every completed buffer is blue |
| Guarantees.SameNumberSameBytes | src/hws_video.c:2268-2339 | In one engine run, buffers completed DONE with the same sequence number hold the same bytes, whoever got them: copied, scaled or written by the card |
| Guarantees.NumbersRise | src/hws_video.c:1823-1843 | Per consumer DONE sequence numbers strictly rise, by copy and zero-copy alike, and the counter is frames dropped plus frames finished |
| Streaming.StreamingReceives | src/hws_video.c:1246-1247 | From STREAMON to STREAMOFF of a consumer at the full rate: a frame it does not get by zero-copy takes the buffer it still holds or the earliest in its queue, and the bottom half handled next hands that buffer back under the frame's number, DONE if and only if no copy was too late and the field could be doubled, else failed |
| Streaming.ZeroCopyReceives | src/hws_video.c:2062-2085 | The consumer served by zero-copy has its buffer back DONE as a good frame ends, if both pairs were pointed at it and moved on in time |
| Streaming.StreamingSeesBlue | src/hws_video.c:2345-2365 | Without signal such a consumer's held or earliest buffer comes back DONE at once |
| Streaming.QueueInOrder | src/hws_video.c:1226-1239 | A queue is first in, first out: at any later time it is what it was, then what was queued since, without some from the front |
| Streaming.HistoryInTurn | src/hws_video.c:1792-1801 | A consumer at the full rate streams from STREAMON to STREAMOFF and has never given a buffer for the coming frame |
| Streaming.HalfCounts | src/hws_video.c:2226-2292 | What each half does to the counters: frames begun, lost and finished, for top and bottom halves that arrive or not |
| Events.EndsGood | src/hws_video.c:2299-2336 | A frame ends DONE if and only if its top half was not copied too late and, unless it is blanked, neither was its bottom half and its field could be doubled where needed |
| Events.ArrivesIs | src/hws_video.c:2196-2230 | The driver takes a half as refreshed exactly when the card wrote it where it is read: not marked, and in the zero-copy buffer if the pair was pointed at it in time |
| Events.ZeroCopyTakes | src/hws_video.c:2016-2060 | A top half takes a zero-copy buffer if and only if the parameter, two settled frames, a progressive input at the output size, YUYV and no HDCP allow it and the first buffer of the consumer chosen is fit: the one served now, or else the first that can be |
| Events.ClockAfter | src/hws_video.c:2199-2206 | The clock is the time of the last half handled since the engine started and the gap before it; nothing else touches it |
| Tally.DeliveredIsDone | src/hws_video.c:1836-1839 | In every reachable state a consumer's count of delivered frames is the number of its buffers handed back DONE |
| Events.StableCounts | src/hws_video.c:2336-2337 | The input counts as settled by the frames completed DONE since zero-copy was last stopped |
| FrameLog.KeepsAssembled | src/hws_video.c:2238-2284 | Every operation keeps: the top half is in every held buffer, in the staging frame or in the zero-copy buffer, and the zero-copy consumer holds no copy buffer |
| FrameLog.KeepsLogged | src/hws_video.c:1823-1843 | Every operation keeps one payload per number and rising numbers |
| FrameLog.OthersAddFailed | src/hws_video.c:2226-2236 | Operations that do not end a frame hand back failed buffers only |
| FrameLog.KeepsNumbered | src/hws_video.c:2228-2232 | Every operation keeps the frame counter equal to drops plus finished frames |
| Assembling.BottomOneFrame | src/hws_video.c:2332-2339 | All a bottom half completes DONE is one frame number, one payload, and different consumers |
| Payload.CopyPayload | src/hws_video.c:2300-2331 | A frame that did not fail is in every held buffer, direct, rendered or black |
| Payload.CardPayload | src/hws_video.c:2300-2303 | So it is in the zero-copy buffer, if its pair moved on in time |
| Payload.BlackPayload | src/hws_video.c:2300-2310 | A frame seen with HDCP is black for copy consumers and zero-copy consumer alike |
| Bounds.KeepsFits | src/hws_video.c:331-370 | Every operation keeps: programmed lengths match the input, each buffer holds an output frame, each zero-copy buffer the longest run |
| Bounds.SetOutputFits | src/hws_video.c:833-854 | The output size changes only while no buffers exist, so no copy can overrun |
| Bounds.ResizeFits | src/hws_video.c:2875-2912 | After a size change, accepted or refused, lengths and stored geometry match |
| Bounds.CopiesStayInside | src/hws_video.c:2270-2331 | Every copy of a half, and the rendered frame, stays inside the app buffer and the staging frame |
| Bounds.RenderFits | src/hws_video.c:2120-2144 | Doubling and scaling write exactly the output size, and doubling fits the scaler's frame |
| Capture.Channel.constructor | src/hws_video.c:1845-1862 | The state the driver starts with satisfies all invariants |
| Capture.Channel.FinishFrame | src/hws_video.c:1823-1843 | Completes the frame's buffers in list order |
| Capture.Channel.HoldBuffers | src/hws_video.c:1776-1821 | One buffer from each consumer that wants the frame; too small ones fail after the scan |
| Capture.Channel.ZcReleaseBuffers | src/hws_video.c:1962-1977 | Keeps and completes exactly the buffers the release test says, in order |
| Capture.Channel.ZcBufferOk | src/hws_video.c:1934-1960 | True exactly when the longest run of every quarter stays in the buffer and in every quarter's window |
| Capture.Channel.ZcFind | src/hws_video.c:2030-2035 | None exactly when no consumer is eligible; else the one served now if that is eligible, and otherwise the first eligible of the list |
| Capture.Channel.ZcPick | src/hws_video.c:2016-2060 | The next frame's buffer, taken from the queue only if it can be used |
| Capture.Channel.ZcFrameEnd | src/hws_video.c:2062-2085 | Ends the frame: complete only if both pairs moved to and from it in time |
| Capture.Channel.ZcStop | src/hws_video.c:2087-2114 | Both pairs back on the DMA buffers, all in-flight buffers failed, at once if the card is stopped |
| Capture.Channel.CopyToFrame | src/hws_video.c:2273-2276 | The same bytes at the same place of every frame buffer, inside each |
| Capture.Channel.FillFrame | src/hws_video.c:2321-2330 | One frame in every buffer, made once and copied from the first |
| Capture.Channel.HandleTop | src/hws_video.c:2238-2284 | A refreshed top half |
| Capture.Channel.HandleBottom | src/hws_video.c:2294-2339 | A bottom half that ends a frame |
| Capture.Channel.VideoHalf | src/hws_video.c:2177-2343 | Any half event, read from where the card wrote it, keeping all invariants, with every copy inside its target |
| Capture.Channel.DeliverNoVideo | src/hws_video.c:2345-2365 | A blue frame for every streaming consumer |
| Capture.Channel.ChangeVideoSize | src/hws_video.c:3895-3944 | Stops zero-copy; then takes the new size and its lengths and returns 0, or changes neither and fails, exactly when the last quarter would reach the audio ring |
| Capture.Channel.QueueBuffer | src/hws_video.c:1206-1239 | Queues a buffer behind the others exactly when it holds an output frame |
| Capture.Channel.StartStreaming | src/hws_video.c:1241-1271 | The consumer streams; the first streamer resets numbers and times and takes zero-copy back |
| Capture.Channel.StopStreaming | src/hws_video.c:1280-1289 | The whole queue goes back with errors |
| Capture.Channel.StopStreamingHeld | src/hws_video.c:1296-1304 | The held buffer goes back; zero-copy stops if it serves this consumer |
| Capture.Channel.StopStreamingQuiesced | src/hws_video.c:1310-1321 | With the engine stopped every zero-copy buffer comes back |
| Rendering.RenderStaged | src/hws_video.c:2116-2144 | A progressive frame scaled from its size to the output size; an interlaced one with each field row twice, as it is at its own size and else scaled; failure exactly when the quarters do not join |
| Rendering.PixelsShown | src/hws_video.c:2129-2142 | With VideoScaler() as the scaler, what is rendered shows the pixels of the input where they belong |
| Rendering.ScalersFit | src/hws_scale.c:1199-1326 | The modelled scalers meet what frame assembly assumes of a scaler |
| Quarters.CutCovers | src/hws_calc.h:28-45 | Quarters are whole 2 KiB blocks, pass the frame by 1 to 2048 bytes, and the last is the largest |
| Quarters.CutIsFourths | src/hws_calc.h:34-43 | The first three quarters are each a fourth of the frame, rounded down to whole blocks |
| Quarters.SpanExcess | src/hws_calc.h:47-61 | The longest run passes the frame by more than 2048 and at most 4096 bytes |
| Quarters.LeastSlack | src/hws_calc.h:63-70 | A slack suffices for every input size if and only if it is at least 4096 |
| Quarters.ZcSlackFits | src/hws_video.c:1199-1203 | So the 8192 bytes zero-copy buffers are longer by hold the longest run of any size |
| Quarters.QuarterSizes | src/hws_calc.h:34-45 | Fills the lengths; the error return is never taken |
| Quarters.ZcSpan | src/hws_calc.h:52-61 | The bytes a zero-copy buffer must hold |
| CardAddr.RunStaysInBuffer | src/hws_video.c:1934-1960 | For an accepted buffer, every byte of the longest run of any quarter decodes to its place in the buffer, inside it |
| CardAddr.DmaRegReaches | src/hws_video.c:3842-3868 | A DMA buffer's register decodes to its own bus address |
| CardAddr.OverlongRunMissesAudio | src/hws_video.c:3790-3803 | A run that register 9 ends stays below the audio ring, for any lengths |
| CardAddr.DmaMaxIsLargest | src/hws_video.c:3797-3802 | With programmed lengths register 9 is exactly the largest quarter unless capped |
| LineDouble.MemCopyFrame | src/hws_video.c:1561-1731 | Returns 0 exactly when lengths fit and rows join; then the output is the concatenated field, each row twice if interlaced, and nothing beyond is written |
| LineDouble.DoubleField | src/hws_video.c:1598-1729 | The interlaced case, for any alignment of rows against quarter ends |
| LineDouble.DoubledAt | src/hws_video.c:1622-1725 | Output rows 2k and 2k+1 both equal field row k |
| LineDouble.CutRowsJoinExactly | src/hws_video.c:1605-1641 | With programmed quarters, three of them of q bytes, lengths always fit and rows join if and only if q is 0, two rows are at most 3q, or a row is 2q |
| LineDouble.CutRowsJoin | src/hws_video.c:1605-1641 | So they do whenever a quarter holds a row |
| LineDouble.OneWideRowRefused | src/hws_video.c:1647-1653 | A one-row field of the widest input is refused |
| Scale.FrameAt | src/hws_scale.c:412-500 | Closed form of the ratio scalers: each output byte is one source byte given by row map and offsets |
| Scale.SamplesKept | src/hws_scale.c:917-943 | Every ratio scaler takes luma from luma, U from U and V from V |
| Scale.ScaleHalf | src/hws_scale.c:917-943 | 2:1 both ways, for all even output widths |
| Scale.ScaleThreeToTwo | src/hws_scale.c:412-448 | 3:2 both ways |
| Scale.ScaleTwoToThree | src/hws_scale.c:449-500 | 2:3 both ways, repeated rows copied from rows already written |
| Scale.ScaleSixToFour | src/hws_scale.c:984-1035 | 3:2 both ways in groups of six pixels |
| Scale.ScaleFourToThree | src/hws_scale.c:1107-1168 | 4:3 both ways |
| Scale.ScaleAny | src/hws_scale.c:660-747 | Any sizes, from a source buffer that holds what is read: fills the output exactly from the centred crop or pad window, and writes nothing behind it |
| Scale.WindowAt | src/hws_scale.c:673-734 | Each output pixel is the source pixel of the centred window or black, crop and pad per axis |
| Scale.ReadsInsideExact | src/hws_scale.c:673-734 | All bytes read are inside the source if and only if nothing is read, or the height is not padded by an odd number and the width either is not or stays off the last source row |
| Scale.OddPadCrossesRow | src/hws_scale.c:673-689 | A window row is taken from one source row alone if and only if the width is not padded by an odd number |
| Scale.ReadsLittlePast | src/hws_scale.c:673-734 | Whatever the sizes, reads end at most one row and one pixel behind the source frame |
| Scaler.ScaledFills | src/hws_scale.c:1199-1326 | Every modelled pair of sizes fills the output exactly |
| Scaler.VideoScaler | src/hws_scale.c:1199-1326 | Between the six pairs of one shape every output byte is from the source within a row and two pixels of its place, and the same kind of sample; for all other modelled pairs the output is the centre of the source, or all of it in a black margin; nothing behind it is written |
| Scaler.ScaledShows | src/hws_scale.c:1199-1326 | So it is with what the dispatch chooses, for all sizes |
| RateWindow.Window.FrameEnd | src/hws_calc.h:116-141 | One frame end, with no overflow of the count and, unless DividesByZero, no division by zero |
| RateWindow.DividesByZeroExactly | src/hws_calc.h:128-133 | The unit is 0 if and only if a frame end comes at the time of the last one in an open window |
| RateWindow.WindowHasNoGap | src/hws_calc.h:123-140 | For any frame ends: a window holds no gap of more than 200 ms, and a period is measured over a second or more, in a unit no interval is shorter than |
| RateWindow.JitterBound | src/hws_calc.h:129-133 | An interval of m periods is counted as m under every jitter J if and only if 2J(2m+3) is below the period |
| RateWindow.SteadyIsMeasured | src/hws_calc.h:103-141 | Over any steady run with missed frame ends each closed window is the period to within 2J over the frames counted, rounded down; exactly the period without jitter |
| Intervals.SnapInterval | src/hws_calc.h:80-101 | The first nearest standard interval, under the wrapped tolerance test |
| Intervals.ClosestInterval | src/hws_calc.h:143-160 | The first nearest candidate within 1% |
| Intervals.SnapIsExact | src/hws_calc.h:97-98 | For 1 < tol <= 41708333 all measurements below a limit are judged right if and only if the limit is at most 41708333 + 2^64 / tol, rounded up |
| Intervals.SnapWraps | src/hws_calc.h:97-98 | At that measurement the wrapped test accepts and the intended one refuses |
| Intervals.SnapsRightBelow | src/hws_calc.h:97-98 | Below it no measurement is misjudged, for every tolerance |
| Intervals.ClosestIsExact | src/hws_calc.h:156-159 | All candidates with errors below a limit are judged right if and only if the limit is at most 2^64 / 100, rounded up |
| AudioQueue.Queue.Store | src/hws_video.c:3444-3524 | From any places: the packet goes into the first free slot from the writing side on, or is refused exactly when all 8 are used; when the sides agree it goes behind those waiting |
| AudioQueue.Queue.Drain | src/hws_video.c:1509-1556 | All waiting packets in order, from whatever places the sides have |
| AudioQueue.TakeInOrder | src/hws_video.c:1513-1554 | Taking the next packet leaves the others in their order, whatever the places are |
| AudioQueue.Queue.Start | src/hws_video.c:3253-3286 | Frees every slot; the sides agree afterwards if and only if the writing side is at 0 |
| AudioQueue.StartKeepsOrderExactly | src/hws_video.c:3268-3276 | After a start with the writing side at k, n packets are delivered in the order they were stored if and only if k + min(n, 8) <= 8 |
| AudioQueue.RestartAndDeliver | src/hws_video.c:3253-3286 | That order is what a run of Start, Store for each packet, and Drain delivers |
| AudioStream.Stream.Deliver | src/hws_video.c:1380-1416 | The ring holds the last frames of everything delivered; callbacks stay floor(frames / period) if and only if the delivery completes less than two periods |
| AudioStream.OneCallbackExactly | src/hws_video.c:1404-1413 | One callback per delivery keeps up with the periods if and only if no delivery completes two |
| AudioStream.WrittenHolds | src/hws_video.c:1391-1403 | Writing around the end keeps the ring equal to the last frames delivered |
| AudioStream.Stream.CardPacket | src/hws_video.c:1433-1439 | A packet from the card ends a gap |
| AudioStream.Stream.SilenceWork | src/hws_video.c:1441-1474 | Inside a gap the silence since the last packet is 1024 times the whole packets due at 48 kHz, over any mix of ticks and packets |
| AudioStream.PacedIsClose | src/hws_video.c:1461-1466 | That is never ahead of 48 kHz and less than one packet behind |

## Left out

* Time: clocks are inputs of a step, and assumptions (a)-(c) above stand for
  what the driver concludes from them. Locks and sleeping: each locked section
  is one step.
* The stale mark: whether the card refreshed a half is an input of the half
  event, so the word the driver writes into buffers, a zero-copy buffer's
  included, and a picture that equals it are not part of this model.
* The card: a run of quarters 2-3 is taken to write from the start of quarter 2
  or 3 on, and a run of quarters 0-1 from that of 0 or 1.
* Guarantees.CompleteIsTwoHalves: for histories in which the driver never
  handles 2^31 top halves in a row without a bottom half; beyond that the
  wrapping comparison of the marks is wrong.
* Guarantees.CompleteAtFrameEnd: the same bound.
* Guarantees.SameNumberSameBytes: the same bound.
* Guarantees.NumbersRise: the same bound.
* Guarantees.ResizedFrames: the same bound.
* Streaming.StreamingReceives and Streaming.ZeroCopyReceives: the same bound.
* Frame numbers, drop and finish counters are unbounded; the source's u32
  counters wrap.
* Progress.ReleasedBySecondBottom: for a buffer that was not with zero-copy at
  some time since which fewer than 2^31 - 1 halves were handled; beyond that
  the wrapping comparison of the marks is wrong.
* Consumers and buffers are records in tables, and `Capture.Channel` groups the
  driver's fields in records, so aliasing between list nodes and relinking of
  lists in place are not captured; the order of lists is.
* HDCP and no-signal fills write whole output frames; the source fills in units
  of four bytes, which is the same for the even widths it offers.
* STREAMON also polls the input size and starts the engine; here these are
  operations of their own.
* In the whole system a scaler reads the frame alone: what `All_VideoScaler()`
  reads behind it, from the rest of the staging frame, is 0 there.
* Streaming.StreamingReceives: for the full rate. At a lower rate
  `Delivery.EveryNth` says which frames a consumer takes part in.
* The pairs of sizes `Scaler.Dispatch` calls `Special` (800 x 600, 720 x 480,
  720 x 576, 1280 x 1024, 4096-wide ratios): about twenty more scalers of the
  same kind. Frame assembly takes them as any function that fills the output.
* Scaler.VideoScaler: the `Special` pairs.
* RateWindow.Window.FrameEnd: nothing is said of the call that divides by zero.
* AudioStream.Stream.Deliver: deliveries that do not wrap the ring twice, past
  which the source writes behind its end; whole sample frames only.
* AudioQueue.Queue.Store: for a running channel, after the stale packets that
  follow an enable were skipped.
* Packets that arrive while no stream runs are dropped by the source; the
  queue's `Drain` returns them. Its 64-bit time products do not wrap here.
* Debug knobs, canary bytes, register snapshots, error counters, V4L2 and ALSA
  registration, controls, events, probe, suspend and teardown.
