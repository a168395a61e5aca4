# Mediaway: containers, replay and sample protection, modelled in Dafny

This project models the sans-io cores of the repository and proves what they promise.

* **Replay ring**: queues of encoded packets with their own timebases, whole-GOP eviction from the front, and clips cut at
  keyframes of an anchor stream. `ReplaySpec` is the ring as a pure machine, `ReplayRing` and `ReplayClip` the same in place;
  `ReplayInvariant` says what every run keeps, `ReplayEviction` what a push and an eviction do to the queues, `ReplayMerge`
  what a clip is, `ReplayClipTimes` what times it hands out, `ReplayHistory` that eviction never shows, `ReplayStorage` that
  a payload off the list is never needed again.
* **WebM**: variable-length integers (`Vint`), lacing (`Lacing`, `LacingModes`), the writer (`MuxSpec`, `Muxer`), the
  incremental reader (`DemuxSpec`, `Demuxer`), independence of chunking (`Chunking`), unknown-size Clusters (`UnknownSize`),
  the round trip through all four layers (`WebmRoundTrip`), elements the writer never emits (`WebmElements`), and when
  Clusters leave the writer (`WebmBatching`). Standards: sections 4, 5, 6.1 and 6.2 of RFC 8794, sections 10.2 and 10.3 of
  RFC 9559.
* **Common encryption** (`Cenc`): counter mode over alternating clear and protected ranges, in place, for any block cipher.
  Standards: section 6.5 of NIST SP 800-38A, section 10.1 of ISO/IEC 23001-7.
* **FLV** (`FlvTags`, `FlvSpec`, `Flv`, `FlvWire`, `FlvRoundTrip`) and **ADTS** (`Adts`): bit-packed headers with
  incremental readers, sequence headers written once. Standards: Annex E of the Adobe Flash Video File Format Specification
  10.1, section 6.2 of ISO/IEC 13818-7.
* **Publish order** (`PublishOrder`): the topological sort that orders crates for publishing.

Each class is proved against a pure machine: a method's contract says that the state it leaves is the machine's next state.
The laws are then lemmas about the machines. Ghost fields (`polled`, `dropped`, `nested`) record what the caller has taken,
what compaction dropped, and whether every element so far lies inside its parents; the originals have no such fields.

Where documentation and code disagree the code is followed. A negative Cluster base is stored as 0, so frames of such a
Cluster come back later than they were pushed: `WebmRoundTrip.RoundTrip` covers every timecode with the value that is read
back, `WebmRoundTrip.TimeKept` says exactly when it is the one pushed, and `WebmRoundTrip.NegativeBaseIsLost` shows the loss.
Anchor decode times may repeat, and then a clip need not begin with its keyframe: `ReplayMerge.FirstPacket` says when it does,
and `ReplayMerge.KeyframeComesSecond` shows a run on which it does not.
Tracks are registered only before a stream has begun and frames pushed only after, as the original's type states have it.

`dafny verify dfyconfig.toml` checks everything.

## Model

| member | source | states |
|---|---|---|
| ReplayHistory.EvictionIsInvisible | crates/mediaway-container/src/replay.rs:382-592 | With packets in decode order per stream, keyframes presented in order and no packet of another stream presented before it decodes: after any run, byte ceilings included, a clip no longer than the ring's span has the same cut, origin, duration and output packets as from a ring that never evicts |
| ReplayHistory.WindowIsHeld | crates/mediaway-container/src/replay.rs:382-592 | The same for every span up to the window when no byte ceiling is set |
| ReplayHistory.ClipsAgree | crates/mediaway-container/src/replay.rs:456-592 | The same for any clip that does not reach behind the front cut, or of any length while no cut is gone |
| ReplayHistory.RunAbbreviates | crates/mediaway-container/src/replay.rs:341-417 | On every in-order run the evicting ring holds the end of the log, and what is gone is what the front cut leaves behind: decoded before it on the anchor, presented before it elsewhere; without a ceiling a cut is gone only once the front cut is a full window old |
| ReplayHistory.StepAbbreviates | crates/mediaway-container/src/replay.rs:341-417 | One operation is answered alike (same error or none) by the evicting ring and the log, and leaves the one an abbreviation of the other |
| ReplayHistory.AdmitsAlike | crates/mediaway-container/src/replay.rs:341-370 | The order check against held packets only agrees with the check against the whole log whenever the log finds the push in order |
| ReplayHistory.SameCut | crates/mediaway-container/src/replay.rs:456-469 | Within reach the shortened cut list and the full one choose the same cut point, and the ring still holds it |
| ReplayHistory.SameTail | crates/mediaway-container/src/replay.rs:511-533 | From a cut still held, every track of the ring and of the log continues with the same packets |
| ReplayHistory.NewestGopHeld | crates/mediaway-container/src/replay.rs:382-417 | On every run, byte ceiling or not: each stream holds the end of all it admitted, and every anchor packet decoded from the newest keyframe on is still held |
| ReplayInvariant.RunKeeps | crates/mediaway-container/src/replay.rs:341-417 | After every run: bytes is the sum of held payload sizes, queues and cuts are in decode order, the front cut is the first anchor packet; and the next admitted push leaves every cut but the first inside the window and the ceiling met unless one cut is left |
| ReplayInvariant.EvictKeeps | crates/mediaway-container/src/replay.rs:382-417 | Eviction keeps the invariant and ends with nothing more to evict |
| ReplayInvariant.AppendKeeps | crates/mediaway-container/src/replay.rs:341-378 | An admitted packet keeps the invariant before anything is evicted |
| ReplayInvariant.StepKeeps | crates/mediaway-container/src/replay.rs:304-378 | Every operation keeps the invariant, refused ones included |
| ReplayInvariant.FrontCut | crates/mediaway-container/src/replay.rs:382-417 | The oldest cut has the decode time of the first anchor packet held |
| ReplayInvariant.PushSettles | crates/mediaway-container/src/replay.rs:341-417 | After an admitted push no cut but the first is out of the window, and only a single cut may be over the ceiling |
| ReplayEviction.EvictionIsExact | crates/mediaway-container/src/replay.rs:391-415 | One eviction takes the oldest cut and off the front of every queue exactly what the next cut leaves behind: what goes decodes (anchor) or is shown (others) before it, and each queue is then empty or begins with a packet that decodes or is shown no earlier |
| ReplayEviction.RunTrims | crates/mediaway-container/src/replay.rs:341-417 | After any run, an accepted push leaves every cut but the oldest younger than the window and, with two cuts or more, the bytes within the ceiling; and if it took a cut, no queue begins with a packet that the front cut leaves behind |
| ReplayEviction.EvictsOnlyWhatIsTooMuch | crates/mediaway-container/src/replay.rs:382-390 | Nothing is evicted if and only if there is no second cut, or it is younger than the window and the ceiling holds; otherwise one GOP goes and the question is put again |
| ReplayEviction.PushQueues | crates/mediaway-container/src/replay.rs:341-378 | An accepted push puts the packet at its queue's end and an anchor keyframe's times at the cut list's end, before fronts are taken; some cut stays, and newest is the later of what it was and the packet's decode time |
| ReplayEviction.PushAnswers | crates/mediaway-container/src/replay.rs:341-370 | A push fails exactly for an unknown stream or a decode time before the last one held of its stream, which the error names; an anchor packet before any keyframe is dropped without error |
| ReplayEviction.AddAnswers | crates/mediaway-container/src/replay.rs:314-331 | A stream is refused exactly for a zero in its timebase or an ID in use, and otherwise joins with an empty queue |
| ReplayEviction.CutsAreTheKeyframesHeld | crates/mediaway-container/src/replay.rs:341-417 | After any run the cut list is the times of the anchor keyframes held, but for the first few that share the oldest cut's decode time |
| ReplayEviction.BytesAreLengths | crates/mediaway-container/src/replay.rs:419-423 | Leaving out one packet lowers the total by its payload length, in memory or stored |
| ReplayMerge.ClipIsExactMerge | crates/mediaway-container/src/replay.rs:551-592 | A clip yields items by decode time with ties to the lower track, and each track contributes exactly its held packets that belong: anchor by dts and pts of the cut, others by presentation start |
| ReplayMerge.OrderedListIsUnique | crates/mediaway-container/src/replay.rs:551-592 | That order and those per-track contents determine the list: any other list with both is the same one |
| ReplayMerge.CutChosen | crates/mediaway-container/src/replay.rs:456-469 | A clip exists exactly when a keyframe is held; its cut is the latest at or before newest - d, and the oldest only if all are later |
| ReplayMerge.NeverShort | crates/mediaway-container/src/replay.rs:440-505 | min(d, span) <= duration of clip_last(d) <= span, whenever a keyframe is held |
| ReplayMerge.FirstPacket | crates/mediaway-container/src/replay.rs:559-592 | When the cut has pts >= dts the first packet out decodes at 0; it is the cut's keyframe, at pts = cut pts - cut dts, if and only if no packet of that decode time presenting no earlier was pushed before it; strictly increasing decode times suffice |
| ReplayMerge.KeyframeComesSecond | crates/mediaway-container/src/replay.rs:341-592 | A run on which the first packet is not the keyframe: a packet of the same decode time was pushed before it |
| ReplayMerge.RebasedFits | crates/mediaway-container/src/replay.rs:582-590 | The 64-bit subtractions do not overflow when the cut has 0 <= dts <= pts and no other packet presents before it decodes |
| ReplayMerge.NoNegativeDts | crates/mediaway-container/src/replay.rs:559-592 | When the cut has pts >= dts no rebased decode time is negative |
| ReplayClipTimes.OutputRebasesItems | crates/mediaway-container/src/replay.rs:582-590 | Packet by packet a clip hands out its items with only the times moved: anchor times by the cut's decode time, every other stream's by the one tick of its own closest to the origin, halves rounded up, within 64 bits |
| ReplayClipTimes.OneTickIsClosest | crates/mediaway-container/src/replay.rs:159-163 | Only one tick of a timebase is closest to an instant in that sense |
| ReplayClipTimes.NanosAreFloor | crates/mediaway-container/src/replay.rs:153-156 | A tick's nanoseconds are the whole ones passed, rounded down for negative ticks too |
| ReplayClipTimes.SpanMeasured | crates/mediaway-container/src/replay.rs:440-448 | The span is newest less the oldest cut's time, never negative, capped at 2^64 - 1, and 0 without a cut |
| ReplayClipTimes.DurationMeasured | crates/mediaway-container/src/replay.rs:498-505 | So is the duration of a clip, from the cut it starts at |
| ReplayClipTimes.DistancesAreClamped | crates/mediaway-container/src/replay.rs:440-505 | For any ring or clip at all a negative distance counts as 0 and a long one as 2^64 - 1 |
| ReplayClipTimes.PayloadsInOrder | crates/mediaway-container/src/replay.rs:431-435 | The k-th packet of the i-th stream has its payload at exactly that place of the list |
| ReplayClip.PartitionPoint | crates/mediaway-container/src/replay.rs:511-533 | The bisection of a sorted queue finds exactly how many packets come before the cut |
| ReplayClip.ClipEntries.constructor | crates/mediaway-container/src/replay.rs:511-533 | A fresh iterator has the whole output of the clip still to yield |
| ReplayClip.ClipEntries.Next | crates/mediaway-container/src/replay.rs:559-592 | One call returns the first packet of what was still to yield, or none, and leaves the rest to yield; ReplayClipTimes.OutputRebasesItems says what each packet is |
| ReplayClip.ClipEntries.Advance | crates/mediaway-container/src/replay.rs:559-592 | One cursor moves, past the item that leads the remaining merge |
| ReplayClip.CollectClip | crates/mediaway-container/src/replay.rs:551-592 | Iterating to the end gives the clip's output |
| Replay.ReplayRing.Empty | crates/mediaway-container/src/replay.rs:284-291 | A ring starts empty with the given window and no ceiling |
| Replay.ForPayload | crates/mediaway-container/src/replay.rs:279-294 | The anchor is track 0, or its timebase is refused |
| Replay.ReplayRing.WithMaxBytes | crates/mediaway-container/src/replay.rs:304-307 | Only the ceiling changes |
| Replay.ReplayRing.RegisterStream | crates/mediaway-container/src/replay.rs:314-331 | Adds an empty queue, or refuses a degenerate timebase or a known ID and changes nothing |
| Replay.ReplayRing.PushEntry | crates/mediaway-container/src/replay.rs:341-378 | New state and error are those of the push machine: unknown stream, out of order, useless anchor packet ignored, or appended and evicted |
| Replay.ReplayRing.EvictOld | crates/mediaway-container/src/replay.rs:382-417 | The nested loops reach exactly the state of repeated single evictions |
| Replay.ReplayRing.DropGop | crates/mediaway-container/src/replay.rs:391-415 | The loops reach the state of a single eviction, which ReplayEviction.EvictionIsExact spells out, and the byte count falls packet by packet |
| Replay.ReplayRing.DropStale | crates/mediaway-container/src/replay.rs:394-414 | The longest stale prefix of one queue goes; no other queue changes |
| Replay.ReplayRing.HeldSpan | crates/mediaway-container/src/replay.rs:440-448 | Distance of the oldest cut from the newest packet, 0 before the first keyframe, clamped to 64 bits |
| Replay.ReplayRing.TakeClip | crates/mediaway-container/src/replay.rs:456-469 | The clip of the last span, its cut found by bisection |
| Replay.CutPartition | crates/mediaway-container/src/replay.rs:460-462 | Bisection of sorted cuts finds how many decode at or before the target |
| Replay.ReplayRing.Payloads | crates/mediaway-container/src/replay.rs:431-435 | The list of payloads, track after track, each front to back |
| ReplayStorage.UnlistedIsNeverNeeded | crates/mediaway-container/src/replay.rs:425-435 | What any later clip hands out is on the list of payloads now or is pushed later: an unlisted payload is never needed again |
| ReplayStorage.Listed | crates/mediaway-container/src/replay.rs:431-435 | The list names a payload exactly when some queue holds it |
| ReplayStorage.RunBrings | crates/mediaway-container/src/replay.rs:341-417 | Only a push brings a payload into the ring, over any further run |
| ReplaySpec.TotalUpdated | crates/mediaway-container/src/replay.rs:394-414 | Replacing one queue changes the total held bytes by the difference of its sums |
| ReplayTime.NanosMonotone | crates/mediaway-container/src/replay.rs:153-156 | to_nanos is monotone |
| ReplayTime.TicksMonotone | crates/mediaway-container/src/replay.rs:159-163 | to_ticks is monotone |
| ReplayTime.TicksOfNanos | crates/mediaway-container/src/replay.rs:153-163 | to_ticks undoes to_nanos on a tick exactly when the nanoseconds cut off are at most half a tick, or the tick is the least 64-bit number; and it never gives a later tick |
| ReplayTime.TicksRoundTrip | crates/mediaway-container/src/replay.rs:153-163 | to_ticks(to_nanos(t)) = t for every timebase with den <= 500,000,001 |
| ReplayTime.HalfATick | crates/mediaway-container/src/replay.rs:159-163 | Rebasing errs by at most half a tick of the stream's timebase, and the 64-bit clamp changes nothing inside the range |
| ReplayTime.ProductFits | crates/mediaway-container/src/replay.rs:153-156 | The 128-bit product of to_nanos is exact for every tick if and only if num <= 18,446,744,073 |
| ReplayTime.RebaseFitsExactly | crates/mediaway-container/src/replay.rs:153-163 | The 128-bit arithmetic of to_ticks is exact on every tick of another stream if and only if it is on the first and the last 64-bit tick |
| ReplayTime.RebaseProductFits | crates/mediaway-container/src/replay.rs:153-163 | It is exact whenever the one numerator times the other denominator is at most 9,223,372,036 times the first denominator |
| WebmRoundTrip.RoundTrip | crates/ebml-webm/src/mux.rs:93-294 | For any registration attempts, any pushes, laced pushes, flushes and polls ending in a flush and a poll, and any chunks: the demuxer returns each accepted frame in order, laces expanded, each at the timecode its Cluster tells and with the track number a VINT tells, plus tracks and timecode scale; the output is well nested with nothing unread |
| WebmRoundTrip.FramesReturn | crates/ebml-webm/src/mux.rs:164-294 | The frames come back exactly as pushed if and only if every accepted push has a track number of at most 2^56 - 2 and lands in a Cluster of non-negative base at a distance that does not overflow; so they do when no timecode is negative and no track number larger |
| WebmRoundTrip.TimeKept | crates/ebml-webm/src/mux.rs:233-285 | A timecode survives if and only if its Cluster's base is not negative and its distance from the base does not overflow |
| WebmRoundTrip.NegativeBaseIsLost | crates/ebml-webm/src/mux.rs:285 | The clamp shows: a first frame at any negative timecode comes back at 0 |
| WebmRoundTrip.FramesKept | crates/ebml-webm/src/mux.rs:164-251 | Over a whole run the frames read back are the pushed ones if and only if every accepted push survives: its track number and its timecode |
| WebmRoundTrip.NotNegativeSurvives | crates/ebml-webm/src/mux.rs:164-251 | Without negative timecodes and larger track numbers every push of a run survives |
| WebmRoundTrip.TrackReads | crates/ebml-webm/src/mux.rs:367-382 | A block's track number reads back as itself up to 2^56 - 2, and as that number above |
| WebmRoundTrip.ReadCluster | crates/ebml-webm/src/demux.rs:211-345 | Reading a written Cluster appends exactly its blocks' frames, told from the stored base, and leaves only the Segment open |
| WebmRoundTrip.BlockParses | crates/ebml-webm/src/demux.rs:457-481 | A written SimpleBlock, laced or not, parses to its track as a VINT tells it, its relative timecode, flags and payloads |
| WebmRoundTrip.ReadFileHeader | crates/ebml-webm/src/mux.rs:111-128 | The written header reads back to the registered tracks and scale, fields of the other media type at their defaults |
| WebmRoundTrip.ReadTrackEntry | crates/ebml-webm/src/mux.rs:335-361 | A written TrackEntry reads back to its track |
| WebmRoundTrip.ElemHeader | crates/ebml-webm/src/mux.rs:296-320 | A written element's header reads back to its ID, its size and its length, whatever follows |
| WebmRoundTrip.CloseAccounts | crates/ebml-webm/src/mux.rs:276-293 | Closing a Cluster turns its pending blocks into frames read, or writes nothing when there are none |
| WebmRoundTrip.PushAccounts | crates/ebml-webm/src/mux.rs:164-251 | A push adds exactly its payloads to the frames that the output and the open Cluster stand for |
| WebmBatching.PushAfterRun | crates/ebml-webm/src/mux.rs:164-258 | After any run, an accepted push onto a Cluster of batch blocks adds exactly that Cluster, with all its blocks, to the pending output, and one onto a Cluster with room within 16-bit reach adds nothing to it |
| WebmBatching.ClustersAreBatched | crates/ebml-webm/src/mux.rs:67-293 | After any registrations and any run all output is the header and Clusters of 1 to batch blocks, and the open Cluster holds exactly the blocks counted, batch at most |
| WebmBatching.PushLands | crates/ebml-webm/src/mux.rs:233-251 | A push into an open Cluster with room and in reach adds its block there alone; any other starts a Cluster with just its block and sends out the one that was open, if it holds one |
| WebmBatching.RefusedExactly | crates/ebml-webm/src/mux.rs:164-237 | A push is refused exactly for no payload, more than 256, or a track not registered, in that order, and then changes nothing |
| WebmBatching.AddTrackAnswers | crates/ebml-webm/src/mux.rs:93-106 | A track is refused exactly for number 0 or a number in use, and otherwise joins the end of the list |
| MuxSpec.UintRoundTrip | crates/ebml-webm/src/mux.rs:421-427 | An unsigned element's minimal body reads back to its value |
| MuxSpec.UintShortest | crates/ebml-webm/src/mux.rs:421-427 | That body has no leading zero byte, except the one of zero itself |
| MuxSpec.EbmlHeaderBytes | crates/ebml-webm/src/mux.rs:300-312 | The EBML header is these 36 bytes: version 1, IDs up to 4 and sizes up to 8 bytes, type webm, version 2 |
| MuxSpec.SegmentStart | crates/ebml-webm/src/mux.rs:111-114 | The Segment begins with its ID and the unknown size in four bytes |
| MuxSpec.OpenedFits | crates/ebml-webm/src/mux.rs:233-251 | The relative timecode always fits 16 bits once the Cluster is chosen |
| Mux.Muxer.WithOptions | crates/ebml-webm/src/mux.rs:67-79 | Scale and batch of at least 1, nothing written |
| Mux.Muxer.RegisterTrack | crates/ebml-webm/src/mux.rs:93-106 | Adds a track, or refuses number 0 or a repeated one |
| Mux.Muxer.BeginStream | crates/ebml-webm/src/mux.rs:111-128 | Appends the file header to the pending output |
| Mux.Muxer.PushOneFrame | crates/ebml-webm/src/mux.rs:164-181 | New state and error are those of the mux machine |
| Mux.Muxer.PushLacedFrames | crates/ebml-webm/src/mux.rs:194-227 | New state and error are those of the mux machine, empty and oversized laces refused |
| Mux.Muxer.OpenCluster | crates/ebml-webm/src/mux.rs:233-251 | The state is the mux machine's, and the distance from the Cluster's base is returned; WebmBatching.PushLands says when a Cluster starts |
| Mux.Muxer.FlushCluster | crates/ebml-webm/src/mux.rs:256-258 | Closes the open Cluster |
| Mux.Muxer.FinishCluster | crates/ebml-webm/src/mux.rs:276-293 | Pending blocks become one Cluster element, or nothing |
| Mux.Muxer.PollBytes | crates/ebml-webm/src/mux.rs:262-274 | Returns exactly the output not yet taken, once |
| Mux.WriteUintElem | crates/ebml-webm/src/mux.rs:421-427 | Writes the value in as few bytes as it needs |
| Mux.WriteTracks | crates/ebml-webm/src/mux.rs:322-333 | Writes nothing without tracks, else one entry each in order |
| Mux.WriteTrackEntry | crates/ebml-webm/src/mux.rs:335-361 | Writes the entry with the fields of its media type |
| Mux.WriteSimpleBlock | crates/ebml-webm/src/mux.rs:367-382 | Writes an unlaced block |
| Mux.WriteLacedSimpleBlock | crates/ebml-webm/src/mux.rs:391-415 | Writes an EBML-laced block |
| Mux.WriteEbmlHeader | crates/ebml-webm/src/mux.rs:300-312 | Writes the EBML header |
| Mux.WriteSegmentInfo | crates/ebml-webm/src/mux.rs:314-320 | Writes the Segment information |
| Chunking.ChunkingInvariance | crates/ebml-webm/src/demux.rs:145-260 | For every well-nested stream and every way of cutting it, the reader understands the same elements, frames, tracks, cues and seek entries, with the same open elements and unread bytes, as in one pass; no open end is ever at or below the dropped offset |
| Chunking.RunFeeds | crates/ebml-webm/src/demux.rs:182-260 | Reading what there is and then reading on with more bytes is reading it all at once |
| Chunking.CompactRebases | crates/ebml-webm/src/demux.rs:508-523 | Compaction changes nothing but the base when every open end is ahead of the read position |
| Chunking.ConsumedIsBounded | crates/ebml-webm/src/demux.rs:508-523 | After a push the consumed part of the buffer is empty, or below 64 KiB and less than half of it; all of it goes or none |
| Chunking.EndsAreRebased | crates/ebml-webm/src/demux.rs:517-520 | Compaction leaves ends ahead where they are and moves ends already passed 2^64 further on |
| Chunking.RunNested | crates/ebml-webm/src/demux.rs:182-260 | On a well-nested stream the open ends stay ordered and ahead of the read position |
| Chunking.RunPrefixNested | crates/ebml-webm/src/demux.rs:182-260 | Every prefix of a well-nested stream is well nested |
| Chunking.StepFeeds | crates/ebml-webm/src/demux.rs:211-260 | A step that made progress is the same step on any longer buffer |
| Demux.Demuxer.PushBytes | crates/ebml-webm/src/demux.rs:145-149 | Appends, reads all it can, and compacts, as the reading machine says |
| Demux.Demuxer.PollFrame | crates/ebml-webm/src/demux.rs:158-160 | Frames leave in queue order, and nothing else changes |
| Demux.Demuxer.PumpElements | crates/ebml-webm/src/demux.rs:182-192 | Reaches the state where no step makes progress |
| Demux.Demuxer.CloseFinishedContexts | crates/ebml-webm/src/demux.rs:194-207 | Closes every element whose end has been reached, innermost first |
| Demux.Demuxer.StepElement | crates/ebml-webm/src/demux.rs:211-260 | One element header and what it leads to, or the wait or halt it ends in |
| Demux.Demuxer.CloseIndefiniteClusterBeforeSibling | crates/ebml-webm/src/demux.rs:270-280 | Before a Segment-level element, unknown-size Clusters on top close |
| Demux.Demuxer.OpenElementContext | crates/ebml-webm/src/demux.rs:282-291 | Scratch state for a newly opened master |
| Demux.Demuxer.CloseElement | crates/ebml-webm/src/demux.rs:293-326 | A closed master hands in its track, block group, cue point or seek entry |
| Demux.Demuxer.FinishBlockGroup | crates/ebml-webm/src/demux.rs:328-345 | A block group yields its block's frames; WebmElements.ReadBlockGroup says which, from the bytes |
| Demux.Demuxer.HandleLeafElement | crates/ebml-webm/src/demux.rs:351-452 | A leaf changes only what its ID and its parent call for |
| Demux.Demuxer.ParseBlockCommon | crates/ebml-webm/src/demux.rs:457-481 | A block parses to track, saturated timecode, flags and payloads, or to nothing when malformed |
| Demux.Demuxer.CompactBuffer | crates/ebml-webm/src/demux.rs:508-523 | Drops the consumed prefix when it is large and rebases every open end, with 64-bit wrap-around |
| Demux.Demuxer.RebaseEnds | crates/ebml-webm/src/demux.rs:517-520 | Every open end falls by the drained length, wrapping at 64 bits |
| Demux.ReadUnsigned | crates/ebml-webm/src/demux.rs:527-536 | Up to eight big-endian bytes, nothing for more |
| Demux.DemuxChunks | crates/ebml-webm/src/demux.rs:145-160 | Pushing chunk by chunk and polling after each collects exactly the frames of the reading machine |
| UnknownSize.UnknownSizeClusters | crates/ebml-webm/src/demux.rs:270-280 | Writing any set of a stream's Clusters with unknown sizes, each in any width, leaves what is understood and unread unchanged, and a well-nested stream well nested; each Cluster stands where only unknown-size elements are open |
| UnknownSize.UnknownSizeClustersInChunks | crates/ebml-webm/src/demux.rs:270-280 | The same however either stream is cut into pushes |
| UnknownSize.UnknownSizeCluster | crates/ebml-webm/src/demux.rs:270-280 | One Cluster so replaced, whatever it holds and whatever follows: the same understood, unread and halted; open at the end are what was open around it, perhaps the Cluster, and above it the same elements, their ends apart by the difference of the two size fields |
| UnknownSize.ClustersNeverStack | crates/ebml-webm/src/demux.rs:270-280 | For any bytes in any chunks no unknown-size Cluster is open directly on another |
| UnknownSize.RunTwins | crates/ebml-webm/src/demux.rs:182-280 | Two readers whose stacks differ only by the known or unknown size of one Cluster stay so to the end |
| UnknownSize.Resume | crates/ebml-webm/src/demux.rs:182-192 | A pass that consumed everything goes on with later bytes as one pass would |
| WebmElements.ReadBlockGroup | crates/ebml-webm/src/demux.rs:282-345 | Over bytes of any BlockGroup, leaves in any order: one frame for each payload of its last Block that parses, at its track and timecode, a keyframe exactly when no ReferenceBlock is there, with the last BlockDuration's value |
| WebmElements.ReadWrittenGroup | crates/ebml-webm/src/demux.rs:282-345 | One written Block, any ReferenceBlocks and at most one BlockDuration give back the Block's payloads at its track and timecode, keyframes if and only if no ReferenceBlock was written, with the duration written |
| WebmElements.ReadCuePoint | crates/ebml-webm/src/demux.rs:293-320 | A written CuePoint gives back a cue of its time and Cluster position, and none when either is missing |
| WebmElements.ReadSeek | crates/ebml-webm/src/demux.rs:293-326 | A written Seek gives back an entry of its ID, cut to 32 bits, and position, and none when either is missing |
| WebmElements.ReadBareTrack | crates/ebml-webm/src/demux.rs:293-300 | A track entry that lacks its number or its codec ID is dropped, and a bare one gets the defaults |
| WebmElements.ForeignIsSkipped | crates/ebml-webm/src/demux.rs:351-452 | An element of an ID the reader does not know is passed over anywhere |
| WebmElements.MisplacedIsSkipped | crates/ebml-webm/src/demux.rs:351-452 | So is a leaf in the wrong parent or under nothing that could own it |
| WebmElements.FieldWidths | crates/ebml-webm/src/demux.rs:351-452 | Values keep the bits their field holds: 8, 32, or 64 with sign; a scale of 0 counts as 1 |
| WebmElements.SampleRateTaken | crates/ebml-webm/src/demux.rs:351-452 | A sample rate of four or eight bytes is taken as it is, any other passed over |
| WebmElements.LongNumberIgnored | crates/ebml-webm/src/demux.rs:527-536 | A number of more than eight bytes changes nothing |
| WebmElements.UnknownLeafHalts | crates/ebml-webm/src/demux.rs:211-260 | A leaf of unknown size halts the reader before it, and what it understood stays |
| WebmElements.BadIdHalts | crates/ebml-webm/src/demux.rs:211-260 | A byte below 16 where an ID should begin halts the reader |
| WebmElements.BadSizeHalts | crates/ebml-webm/src/demux.rs:211-260 | So does a zero byte where a size should begin |
| WebmElements.LacedBlockParses | crates/ebml-webm/src/demux.rs:457-481 | A block whose payloads are laced in any mode parses to them, its track, flags and clamped timecode |
| WebmElements.BlockLaidOut | crates/ebml-webm/src/mux.rs:367-419 | A written block body is its track, relative timecode in two's complement, key and lacing flags alone, then the payload |
| Lacing.LacingInverts | crates/ebml-webm/src/lacing.rs:42-141 | EBML split of count byte, encoded sizes and joined payloads gives back exactly the payloads, for 2 to 256 of them with sizes below 2^55 |
| Lacing.SplitTiles | crates/ebml-webm/src/lacing.rs:42-122 | Whenever split succeeds the ranges are in bounds, adjacent, end at the body's end, and number count + 1 (1 when unlaced) |
| Lacing.FixedSizesEqual | crates/ebml-webm/src/lacing.rs:82-89 | In fixed-size mode all ranges, the last too, are equal |
| LacingModes.XiphInverts | crates/ebml-webm/src/lacing.rs:68-122 | Xiph split of count byte, runs of 255 and joined payloads gives back the payloads, 2 to 256 of any lengths |
| LacingModes.XiphOnly | crates/ebml-webm/src/lacing.rs:68-122 | And nothing else splits as Xiph-laced: such a body is the laced form of what it splits into |
| LacingModes.FixedSplitsExactly | crates/ebml-webm/src/lacing.rs:82-89 | Fixed-size lacing splits if and only if the bytes after the count divide evenly |
| LacingModes.SplitJoins | crates/ebml-webm/src/lacing.rs:42-122 | In any mode what a body splits into, joined, is the end of the body |
| LacingModes.OneFrame | crates/ebml-webm/src/lacing.rs:47-63 | Unlaced, or at a count of zero, the rest of the body is one frame |
| LacingModes.ModeOfFlags | crates/ebml-webm/src/lacing.rs:29-36 | Two flag bits select the mode: neither, lower, higher, both |
| Lacing.LaceFieldsRead | crates/ebml-webm/src/lacing.rs:90-141 | The size fields read back to the sizes, whatever follows |
| Lacing.Split | crates/ebml-webm/src/lacing.rs:42-122 | The loops compute the range specification and never read past the body, for any bytes and mode |
| Lacing.SplitXiph | crates/ebml-webm/src/lacing.rs:68-81 | Runs of 255 are summed up to the first smaller byte, for each size |
| Lacing.ReadXiphSize | crates/ebml-webm/src/lacing.rs:70-79 | One size: bytes of 255 and the first smaller one summed, or nothing when the body ends first |
| Lacing.SplitEbml | crates/ebml-webm/src/lacing.rs:90-103 | First size plain, later ones by biased difference, failing on a negative size |
| Lacing.LayOut | crates/ebml-webm/src/lacing.rs:107-122 | Ranges laid from the sizes, the last taking what remains |
| Lacing.EncodeEbmlLaceSizes | crates/ebml-webm/src/lacing.rs:130-141 | Appends the size fields of EBML lacing |
| Vint.SizeRoundTrip | crates/ebml-webm/src/vint.rs:52-125 | decode_size undoes encode_size up to 2^56 - 2, never as unknown, in the least length that fits, whatever follows |
| Vint.SizeSaturates | crates/ebml-webm/src/vint.rs:119-125 | Larger values all encode to 2^56 - 2, in eight bytes |
| Vint.DeltaRoundTrip | crates/ebml-webm/src/vint.rs:161-174 | The bias formula of lacing undoes encode_signed_delta for abs(delta) < 2^55 |
| Vint.IdRoundTrip | crates/ebml-webm/src/vint.rs:78-105 | decode_id undoes encode_id exactly for the IDs whose first byte announces their length |
| Vint.UnknownDecodes | crates/ebml-webm/src/vint.rs:183-192 | The unknown size in any width decodes as unknown |
| Vint.SizeErrors | crates/ebml-webm/src/vint.rs:52-67 | decode_size says reserved exactly for a zero first byte, incomplete exactly while shorter than announced, and otherwise succeeds in that length |
| Vint.IdErrors | crates/ebml-webm/src/vint.rs:78-92 | So does decode_id, with unsupported for any longer than four bytes, even before all are there |
| Vint.DeltaShortest | crates/ebml-webm/src/vint.rs:161-174 | encode_signed_delta takes no more bytes than the delta needs |
| Vint.DeltaSaturates | crates/ebml-webm/src/vint.rs:161-174 | Deltas of 2^55 or more either way are cut to the ends of the eight-byte range, or to the other end where the 64-bit sum wraps |
| Vint.TablesArePowers | crates/ebml-webm/src/vint.rs:52-181 | Data limit, marker and bias are 2^(7 len), 2^(8 - len) and 2^(7 len - 1) - 1 |
| Vint.DecodersIgnoreWhatFollows | crates/ebml-webm/src/vint.rs:52-92 | Both decoders answer alike on every extension once they no longer say Incomplete |
| Vint.FixedSizeDecodes | crates/ebml-webm/src/vint.rs:138-145 | A size in a fixed width decodes to itself |
| Vint.DecodeSize | crates/ebml-webm/src/vint.rs:52-67 | The accumulating loop computes the number spelled, less the marker, and its unknown flag |
| Vint.DecodeId | crates/ebml-webm/src/vint.rs:78-92 | The loop computes the number spelled, marker kept |
| Vint.EncodeId | crates/ebml-webm/src/vint.rs:102-105 | Appends the ID in its own length |
| Vint.EncodeSize | crates/ebml-webm/src/vint.rs:119-125 | Appends the size in the least length found by the loop |
| Vint.EncodeSizeFixedLen | crates/ebml-webm/src/vint.rs:138-145 | Appends marker plus value in the width given, a width outside 1 to 8 brought inside |
| Vint.EncodeSignedDelta | crates/ebml-webm/src/vint.rs:161-174 | Appends the biased difference in the least length found by the loop, the sum wrapping at 64 bits and clamped at eight bytes |
| Vint.EncodeUnknownSize | crates/ebml-webm/src/vint.rs:183-192 | Appends the all-ones size in the width given, a width outside 1 to 8 brought inside |
| Cenc.DecryptUndoesEncrypt | crates/iso-cenc/src/cenc.rs:65-122 | Masking twice is the identity for every subsample list, accepted or not, for any block cipher |
| Cenc.ClearBytesUntouched | crates/iso-cenc/src/cenc.rs:103-120 | Clear and trailing bytes are unchanged |
| Cenc.PlaceInRange | crates/iso-cenc/src/cenc.rs:103-147 | A protected byte meets the key-stream block numbered by the sum of ceil(p/16) over earlier ranges plus its own offset / 16 |
| Cenc.MaskedByCounter | crates/iso-cenc/src/cenc.rs:86-147 | The byte at offset of a fitting protected range is XORed with byte offset % 16 of the cipher of the IV incremented as often as there were blocks, whole or begun, in earlier ranges plus offset / 16; clear bytes of fitting ranges stay |
| Cenc.WholeSampleMasked | crates/iso-cenc/src/cenc.rs:97-102 | Without subsamples byte k of the sample meets byte k % 16 of the cipher of the IV incremented k / 16 times |
| Cenc.RestUntouched | crates/iso-cenc/src/cenc.rs:103-121 | From the first subsample that does not fit on, or after the last, no byte changes |
| Cenc.FitsIffTotalFits | crates/iso-cenc/src/cenc.rs:103-117 | A sample is accepted if and only if its subsamples together are no longer than it |
| Cenc.XorIsBitwise | crates/iso-cenc/src/cenc.rs:130-133 | A bit of the result is set exactly where the two bytes differ |
| Cenc.ScatterGather | crates/iso-cenc/src/cenc.rs:103-120 | When every protected range but the last is whole blocks, the result is one continuous counter-mode pass over the joined protected bytes, put back in place |
| Cenc.CounterAfter | crates/iso-cenc/src/cenc.rs:139-147 | The 16-byte counter after k increments is iv + k mod 2^128 |
| Cenc.CarryIsNext | crates/iso-cenc/src/cenc.rs:139-147 | One increment with carry is the next number, wrapping at 2^128 |
| Cenc.ShortIvCounts | crates/iso-cenc/src/cenc.rs:151-155 | An 8-byte IV leaves the low half to count blocks |
| Cenc.IncBe128 | crates/iso-cenc/src/cenc.rs:139-147 | The in-place loop adds one with carry |
| Cenc.XorCtr | crates/iso-cenc/src/cenc.rs:124-136 | In place, every byte of the range is masked by its key-stream byte and the counter moves on by the blocks used; Cenc.MaskedByCounter says which cipher input that is |
| Cenc.XorBlock | crates/iso-cenc/src/cenc.rs:130-133 | In place, n bytes are masked by one block |
| Cenc.WalkSubsamples | crates/iso-cenc/src/cenc.rs:103-121 | The in-place walk masks as far as the subsamples fit, and reports an overflow after that much is done |
| Cenc.ApplyCenc | crates/iso-cenc/src/cenc.rs:86-122 | In place result and error for every pattern, IV, subsample list and data |
| FlvRoundTrip.RoundTrip | crates/mediaway-container/src/flv.rs:107-489 | Whatever is registered, pushed or refused in whatever order, and however the file is cut: the demuxer returns each accepted packet in order as FLV can tell it, one record a stream, and no leftover bytes |
| FlvRoundTrip.PacketsReturn | crates/mediaway-container/src/flv.rs:150-232 | Representable H.264 and AAC packets in any interleaving come back exactly, and every stream listed carries its registered data |
| FlvRoundTrip.ReadAsWritten | crates/mediaway-container/src/flv.rs:251-318 | A packet comes back as it was if and only if dts is 32-bit, duration 0, not a discard, and pts - dts is signed 24-bit (video) or 0 on a keyframe (audio) |
| FlvRoundTrip.OneSequenceHeader | crates/mediaway-container/src/flv.rs:158-232 | A track registered at most once has at most one sequence header in the file; it precedes every AVC or AAC frame and carries the registered data |
| FlvRoundTrip.FlvChunking | crates/mediaway-container/src/flv.rs:337-452 | For any bytes at all, cutting them into chunks changes no packet, stream record or leftover byte |
| FlvRoundTrip.TagsRead | crates/mediaway-container/src/flv.rs:350-368 | Written tags are all read and handled in order, leaving nothing |
| FlvRoundTrip.OpHeard | crates/mediaway-container/src/flv.rs:107-232 | One operation is heard as exactly its accepted packet and its new stream record |
| FlvRoundTrip.VideoHeard | crates/mediaway-container/src/flv.rs:370-406 | A written sequence header is heard as stream data, a written frame as its packet |
| FlvRoundTrip.AudioHeard | crates/mediaway-container/src/flv.rs:408-452 | The same for AAC and for MP3 |
| FlvRoundTrip.MuxSession | crates/mediaway-container/src/flv.rs:85-245 | The muxer in place writes exactly the specified file for any operations |
| Flv.FlvMuxer.RegisterTrack | crates/mediaway-container/src/flv.rs:107-139 | Fills the slot and forgets whether a header was written, or refuses the codec |
| Flv.FlvMuxer.PushOnePacket | crates/mediaway-container/src/flv.rs:150-156 | State, bytes and error as specified, unknown stream IDs refused |
| Flv.FlvMuxer.PushVideoPacket | crates/mediaway-container/src/flv.rs:158-185 | Sequence header once, then the frame; an oversized frame leaves the header written |
| Flv.FlvMuxer.PushAudioPacket | crates/mediaway-container/src/flv.rs:187-232 | The same for AAC; MP3 without header |
| Flv.FlvMuxer.WriteRawTag | crates/mediaway-container/src/flv.rs:242-245 | A caller-framed tag is appended or refused |
| Flv.FlvDemuxer.PollPacket | crates/mediaway-container/src/flv.rs:350-368 | Returns the next packet still to be read, or none only when nothing more can be read; skipped tags change only stream data |
| Flv.FlvDemuxer.HandleVideoTag | crates/mediaway-container/src/flv.rs:370-406 | Stream data, packet or nothing, as specified |
| Flv.FlvDemuxer.HandleAudioTag | crates/mediaway-container/src/flv.rs:408-452 | Stream data, packet or nothing, as specified |
| Flv.DemuxChunks | crates/mediaway-container/src/flv.rs:337-368 | Pushing chunk by chunk and polling after each collects exactly the specified packets and streams |
| FlvTags.TagReads | crates/flv-core/src/demux.rs:84-109 | Reading a written tag gives it back, 32-bit timestamp included, and leaves what follows |
| FlvTags.HeaderReads | crates/flv-core/src/demux.rs:63-82 | Reading a written file header gives back its flags and leaves what follows |
| FlvTags.TagStays | crates/flv-core/src/demux.rs:84-109 | A tag or tag error once read reads the same when more bytes follow |
| FlvTags.HeaderStays | crates/flv-core/src/demux.rs:63-82 | So does a header or a bad signature |
| FlvWire.TagLaidOut | crates/flv-core/src/mux.rs:42-63 | A tag byte by byte: type, 24-bit length, low 24 bits and then high byte of the time, stream 0, data, and the length of all that as trailer |
| FlvWire.HeaderLaidOut | crates/flv-core/src/mux.rs:27-35 | A file header byte by byte: signature, version 1, the two flags alone, length 9, four zero bytes |
| FlvWire.RefusedTags | crates/flv-core/src/mux.rs:42-52 | A tag is refused exactly before the header and above 2^24 - 1 bytes of data |
| FlvWire.AnyHeaderRead | crates/flv-core/src/demux.rs:63-82 | A header of any stated length is passed over with four bytes more, once all are there |
| FlvWire.AnyTagRead | crates/flv-core/src/demux.rs:84-109 | What each byte of any tag means to the reader, when it waits and when it fails |
| FlvWire.VideoPushWrites | crates/mediaway-container/src/flv.rs:158-185 | A video push that succeeds writes, byte by byte, its frame, and the registered data once before the first |
| FlvWire.AudioPushWrites | crates/mediaway-container/src/flv.rs:187-232 | So does an AAC push; an MP3 push writes its frame alone |
| FlvWire.WhatIsTaken | crates/mediaway-container/src/flv.rs:107-156 | Only H.264, AAC and MP3 register, each in its slot, and only streams 0 and 1 take packets |
| FlvWire.VideoTagHeard | crates/mediaway-container/src/flv.rs:370-406 | Any video tag: stream data, a frame with signed 24-bit offset and key flag, or nothing |
| FlvWire.AudioTagHeard | crates/mediaway-container/src/flv.rs:408-452 | Any audio tag: stream data, a packet, or nothing |
| FlvTags.TagWriter.WriteHeader | crates/flv-core/src/mux.rs:27-35 | Appends the 13 header bytes and allows tags |
| FlvTags.TagWriter.WriteTag | crates/flv-core/src/mux.rs:42-63 | Appends the tag with its trailer, or refuses it before the header or above 24 bits |
| FlvTags.TagReader.ReadHeader | crates/flv-core/src/demux.rs:63-82 | Shifts and slices read the header fields by their big-endian meaning; waiting and errors change nothing |
| FlvTags.TagReader.ReadTag | crates/flv-core/src/demux.rs:84-109 | Shifts and slices read the tag fields by their big-endian meaning; waiting and errors change nothing |
| FlvTags.TagReader.PollOneTag | crates/flv-core/src/demux.rs:56-61 | The header first if due, then one tag |
| Adts.AdtsRoundTrip | crates/adts-core/src/demux.rs:42-84 | Any payloads at any standard rate, written and cut in any way: every one up to 8184 bytes comes back in order, no byte is left, and the configuration is the original if and only if channels <= 7 |
| Adts.AdtsChunking | crates/adts-core/src/demux.rs:42-84 | For any bytes at all, cutting them into chunks changes no payload, configuration or leftover byte |
| Adts.HeaderBytes | crates/adts-core/src/mux.rs:36-54 | The shifts and masks lay the fields out as section 6.2 of ISO/IEC 13818-7 does |
| Adts.FrameReads | crates/adts-core/src/demux.rs:42-84 | The front of a written frame reads as its configuration and length |
| Adts.AnyHeaderLooks | crates/adts-core/src/demux.rs:42-84 | Any header, with or without checksum and whatever its other bits: wait, bad sync, reserved rate, or the frame of its fields |
| Adts.SyncNeeded | crates/adts-core/src/demux.rs:42-48 | Seven bytes are awaited; then anything but twelve set bits in front is bad |
| Adts.UnreadBits | crates/adts-core/src/mux.rs:36-54 | The remaining bits written: version 4, no layer, no checksum, fullness unknown, one block |
| Adts.OversizeExactly | crates/adts-core/src/mux.rs:36-41 | A payload is refused exactly above 8184 bytes, with its frame's length |
| Adts.TablesInvert | crates/adts-core/src/types.rs:25-68 | Rate table and index search undo each other, and so do the profile bits |
| Adts.LookFeeds | crates/adts-core/src/demux.rs:42-84 | An answer other than waiting stays the same on every longer buffer |
| Adts.NewMuxer | crates/adts-core/src/mux.rs:25-29 | Succeeds exactly for the 13 standard rates |
| Adts.AdtsMuxer.WriteFrame | crates/adts-core/src/mux.rs:36-54 | Appends one frame, or refuses one above 8191 bytes and appends nothing |
| Adts.AdtsDemuxer.PollFrame | crates/adts-core/src/demux.rs:42-84 | Payload, wait or error as the front of the buffer says; only a whole frame changes anything |
| Adts.DemuxChunks | crates/adts-core/src/demux.rs:28-84 | Pushing chunk by chunk and polling after each collects exactly the specified payloads |
| PublishOrder.PublishOrder | tools/scripts/publish-crates.ts:67-88 | An order results exactly when no crate depends on itself round a cycle; it places every crate once after all its dependencies and no other such order is alphabetically earlier |
| PublishOrder.LeastOrder | tools/scripts/publish-crates.ts:67-88 | If any valid order exists, the sort's is valid and no later than it, name by name |
| PublishOrder.LeastIsUnique | tools/scripts/publish-crates.ts:67-88 | Any valid order that is no later than every valid order is the sort's |
| PublishOrder.CompleteIffAcyclic | tools/scripts/publish-crates.ts:76-88 | The order has every crate if and only if the graph, repeated edges allowed, is acyclic |
| PublishOrder.ShortMeansCycle | tools/scripts/publish-crates.ts:76-88 | A short order leaves a cycle made of crates left out |
| PublishOrder.CycleNeverPlaced | tools/scripts/publish-crates.ts:76-84 | No crate on a cycle is ever placed |
| PublishOrder.TopologicalOrder | tools/scripts/publish-crates.ts:68-84 | Indegree map, dependents map and sorted queue yield at every turn the alphabetically first crate whose dependencies are all placed, until none is left |
| PublishOrder.CollectDependents | tools/scripts/publish-crates.ts:70-73 | Each crate is entered under a dependency as often as it lists it |
| PublishOrder.Release | tools/scripts/publish-crates.ts:79-83 | After one crate's dependents are told, indegrees count what is still missing and the sorted queue holds exactly those with none |
| PublishOrder.SortSorts | tools/scripts/publish-crates.ts:74-82 | Sorting the queue orders it and loses nothing |
| PublishOrder.LeqIsAlphabetical | tools/scripts/publish-crates.ts:74-82 | The order is the alphabet's: a beginning of the other name, or smaller at the first character that differs |

## Left out

- WebmRoundTrip.RoundTrip: files of 2^55 bytes or more.
- Chunking.ChunkingInvariance: streams whose known-size elements reach past their parents are not covered; compaction's 64-bit wrap-around on them is modelled, but no invariance is claimed.
- ReplayTime.ProductFits: the ring itself is modelled with unbounded nanoseconds. Beyond the conditions of ReplayTime.ProductFits and ReplayTime.RebaseFitsExactly, which are exact, the original's 128-bit arithmetic overflows on the first or the last tick; where only the bound of ReplayTime.RebaseProductFits is passed it need not.
- Lacing.EncodeEbmlLaceSizes: sizes are natural numbers; the original casts them to 64 signed bits, which changes none below 2^63.
- Lacing.Split: the checked additions that cannot fail on a body in memory, and the 64-bit conversions of sizes below 2^56, are plain additions.
- Mux.Muxer.OpenCluster: the difference of two 64-bit timecodes wraps, as an optimised build has it; a build with overflow checks stops instead.
- Cenc.ApplyCenc: the checked additions on subsample lengths are plain additions, with the same error for whatever reaches past the data; AES is any function from 16 bytes to 16 bytes.
- Cenc.WalkSubsamples: what a pattern's skip count would do, since every pattern with a crypt count is refused and the skip count of others is ignored.
- PublishOrder.TopologicalOrder: names are compared by character, which is how the script's sort compares the ASCII names that crates have; the sort itself is an insertion sort.
- PublishOrder.Release: a method of its own here, inline in the script.
- Flv.FlvDemuxer.PollPacket: errors of the tag layer end a poll like a wait does, as in the source, so they are not reported.
- FlvRoundTrip.RoundTrip: tags the caller frames itself are script data; a caller's own audio or video tags could say anything.
- Adts.DemuxChunks: it stops polling at an error, after which the original would report the same error again.
- ReplayClip.ClipEntries.Next: rebased times are unbounded integers, where the original subtracts in 64 bits; ReplayMerge.RebasedFits says when that cannot overflow. The iterator holds the clip's tracks as values instead of borrowing the ring.
- UnknownSize.UnknownSizeCluster: a Cluster inside an unknown-size Video, Audio, CuePoint, CueTrackPositions or Seek element, where what follows the Cluster would belong to that element in one reader only; Matroska puts Clusters in Segments.
- WebmRoundTrip.ReadFileHeader: codec and language strings are bytes; UTF-8 validation is not modelled, and a sampling frequency is its eight (or four) stored bytes, not a float.
- Choosing between 8-byte and 16-byte constant IVs, and the headers' audio and video flags as queries.
- Constructors, getters and Default implementations that only copy fields or delegate.
- Shared byte buffers, small-vector capacity, borrow and type states, and 32-bit `usize`.
- `Duration` is a natural number of nanoseconds, `Packet` payloads are byte sequences.
- The codec tables and field copies of webm.rs and convert.rs, and the facades ogg.rs, ts.rs, mp3.rs, wav.rs and mp4.rs, whose cores are not part of this model.
- Metadata, registry and network parts of the publish script.
