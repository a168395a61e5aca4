/** The incremental reader in place: a growing buffer, a stack of open elements, scratch state, a frame queue. */
module Demux {
  import opened Bytes
  import opened Vint
  import opened Lacing
  import opened Ids
  import opened DemuxSpec

  class Demuxer {
    var buffer: seq<Byte>
    var readPos: nat
    /** Ends count from the start of `buffer`. */
    var stack: seq<OpenElement>
    var tracks: seq<TrackInfo>
    var buildingTrack: Option<TrackScratch>
    var buildingBlockGroup: Option<GroupScratch>
    var buildingCuePoint: Option<CueScratch>
    var buildingSeek: Option<SeekScratch>
    var cues: seq<CuePoint>
    var seekHead: seq<SeekEntry>
    var timecodeScale: nat
    var clusterTimecode: I64
    var frames: seq<Frame>
    var halted: bool

    /** Bytes dropped from the buffer, frames already polled, and whether every element has nested so far. */
    ghost var dropped: nat
    ghost var polled: seq<Frame>
    ghost var nested: bool

    ghost predicate Valid()
      reads this
    {
      readPos <= |buffer|
    }

    ghost function Understood(): Core
      reads this`tracks, this`buildingTrack, this`buildingBlockGroup, this`buildingCuePoint, this`buildingSeek
      reads this`cues, this`seekHead, this`timecodeScale, this`clusterTimecode, this`polled, this`frames
    {
      Core(tracks, buildingTrack, buildingBlockGroup, buildingCuePoint, buildingSeek, cues, seekHead, timecodeScale,
           clusterTimecode, polled + frames)
    }

    ghost function View(): State
      requires Valid()
      reads this
    {
      State(dropped, dropped + readPos, buffer[readPos..], Shifted(stack, dropped), Understood(), halted, nested)
    }

    constructor ()
      ensures Valid() && View() == START
    {
      buffer, readPos, stack := [], 0, [];
      tracks, cues, seekHead, frames := [], [], [], [];
      buildingTrack, buildingBlockGroup, buildingCuePoint, buildingSeek := None, None, None, None;
      timecodeScale, clusterTimecode, halted := DEFAULT_TIMECODE_SCALE, 0, false;
      dropped, polled, nested := 0, [], true;
    }

    method PushBytes(chunk: seq<Byte>)
      requires Valid()
      modifies this
      ensures Valid() && View() == Push(old(View()), chunk)
      ensures polled == old(polled)
    {
      buffer := buffer + chunk;
      assert View() == Feed(old(View()), chunk) by {
        assert buffer[readPos..] == old(buffer[readPos..]) + chunk;
      }
      PumpElements();
      CompactBuffer();
    }

    /** Takes the oldest queued frame; what has been understood stays the same. */
    method PollFrame() returns (frame: Option<Frame>)
      requires Valid()
      modifies this`frames, this`polled
      ensures Valid() && View() == old(View())
      ensures frame == if old(frames) == [] then None else Some(old(frames)[0])
      ensures frames == if old(frames) == [] then [] else old(frames)[1..]
      ensures polled == if old(frames) == [] then old(polled) else old(polled) + [old(frames)[0]]
    {
      if |frames| == 0 {
        return None;
      }
      frame := Some(frames[0]);
      assert polled + frames == polled + [frames[0]] + frames[1..];
      polled := polled + [frames[0]];
      frames := frames[1..];
    }

    method PumpElements()
      requires Valid()
      modifies this
      ensures Valid() && View() == Pump(old(View()))
      ensures polled == old(polled)
    {
      if halted {
        return;
      }
      while true
        invariant Valid() && polled == old(polled) && !halted
        invariant Run(View()) == Run(old(View()))
        decreases |buffer| - readPos
      {
        ghost var before := View();
        CloseFinishedContexts();
        FinishKept(before);
        ghost var closed := View();
        var more := StepElement();
        if more {
          StepNotHalted(closed);
        }
        if !more {
          break;
        }
      }
    }

    method CloseFinishedContexts()
      requires Valid()
      modifies this
      ensures Valid() && View() == CloseFinished(old(View()))
      ensures polled == old(polled) && buffer == old(buffer) && readPos == old(readPos)
    {
      hide Pop, Demuxer.Understood;
      while true
        invariant Valid() && polled == old(polled) && buffer == old(buffer) && readPos == old(readPos)
        invariant CloseFinished(View()) == CloseFinished(old(View()))
        decreases |stack|
      {
        if |stack| == 0 {
          return;
        }
        var top := stack[|stack| - 1];
        var done := top.end.Some? && readPos >= top.end.value;
        if !done {
          return;
        }
        PopAndClose();
      }
    }

    method PopAndClose()
      requires Valid() && |stack| > 0
      modifies this
      ensures Valid() && View() == Pop(old(View()))
      ensures polled == old(polled) && buffer == old(buffer) && readPos == old(readPos) && |stack| == old(|stack|) - 1
    {
      var closed := stack[|stack| - 1];
      ShiftedFront(stack, dropped);
      stack := stack[..|stack| - 1];
      CloseElement(closed.id);
    }

    /** Reads the next element's header and acts on it; `false` when that has to wait. */
    method StepElement() returns (more: bool)
      requires Valid() && !halted
      modifies this
      ensures Valid() && (View(), more) == Step(old(View()))
      ensures polled == old(polled) && buffer == old(buffer)
      ensures more ==> readPos > old(readPos)
    {
      hide Enter, CloseBeforeSibling, SizeAt, IdAt, Demuxer.Understood;
      ghost var start := View();
      var idRead := DecodeId(buffer[readPos..]);
      if idRead.Err? {
        if idRead.error != Incomplete {
          halted := true;
        }
        return false;
      }
      var id, idLen := idRead.value.0, idRead.value.1;
      CloseIndefiniteClusterBeforeSibling(id);
      RestKept(start, id);
      assert buffer[readPos + idLen..] == start.rest[idLen..];
      var sizeRead := DecodeSize(buffer[readPos + idLen..]);
      if sizeRead.Err? {
        if sizeRead.error != Incomplete {
          halted := true;
        }
        return false;
      }
      var size, headerLen := sizeRead.value.0, idLen + sizeRead.value.1;
      more := EnterElement(id, if size.unknown then None else Some(size.value), headerLen);
    }

    /** The part of a step after its header: open a master, take in a leaf, wait, or halt. */
    method EnterElement(id: nat, size: Option<nat>, headerLen: nat) returns (more: bool)
      requires Valid() && 0 < headerLen <= |buffer| - readPos
      modifies this
      ensures Valid() && (View(), more) == Enter(old(View()), id, size, headerLen)
      ensures polled == old(polled) && buffer == old(buffer)
      ensures more ==> readPos > old(readPos)
    {
      hide Leaf, Open;
      if IsDescendMaster(id) {
        OpenMaster(id, size, headerLen);
        return true;
      }
      if size.None? {
        halted := true;
        return false;
      }
      if readPos + headerLen + size.value > |buffer| {
        return false;
      }
      TakeLeaf(id, size.value, headerLen);
      return true;
    }

    method OpenMaster(id: nat, size: Option<nat>, headerLen: nat)
      requires Valid() && 0 < headerLen <= |buffer| - readPos
      modifies this
      ensures Valid() && View() == Open(old(View()), id, size, headerLen)
      ensures polled == old(polled) && buffer == old(buffer) && readPos > old(readPos)
    {
      hide OnOpen, Nests, Shifted, Demuxer.Understood;
      var contentStart := readPos + headerLen;
      assert buffer[readPos..][headerLen..] == buffer[contentStart..];
      var end := match size case None => None case Some(n) => Some(contentStart + n);
      OpenElementContext(id);
      nested := nested && Nests(Shifted(stack, dropped), ShiftEnd(end, dropped));
      ShiftedPush(stack, OpenElement(id, end), dropped);
      stack := stack + [OpenElement(id, end)];
      readPos := contentStart;
    }

    method TakeLeaf(id: nat, size: nat, headerLen: nat)
      requires Valid() && 0 < headerLen && headerLen + size <= |buffer| - readPos
      modifies this
      ensures Valid() && View() == Leaf(old(View()), id, size, headerLen)
      ensures polled == old(polled) && buffer == old(buffer) && readPos > old(readPos)
    {
      hide HandleLeaf;
      var contentStart := readPos + headerLen;
      var end := contentStart + size;
      assert buffer[readPos..][headerLen..headerLen + size] == buffer[contentStart..end];
      assert buffer[readPos..][headerLen + size..] == buffer[end..];
      HandleLeafElement(id, contentStart, end);
      readPos := end;
    }

    method CloseIndefiniteClusterBeforeSibling(id: nat)
      requires Valid()
      modifies this
      ensures Valid() && View() == CloseBeforeSibling(old(View()), id)
      ensures polled == old(polled) && buffer == old(buffer) && readPos == old(readPos)
    {
      if !IsSegmentLevelChild(id) {
        return;
      }
      while |stack| > 0 && stack[|stack| - 1].id == CLUSTER && stack[|stack| - 1].end.None?
        invariant Valid() && polled == old(polled) && buffer == old(buffer) && readPos == old(readPos)
        invariant CloseBeforeSibling(View(), id) == CloseBeforeSibling(old(View()), id)
        decreases |stack|
      {
        PopAndClose();
      }
    }

    method OpenElementContext(id: nat)
      requires Valid()
      modifies this`buildingTrack, this`clusterTimecode, this`buildingBlockGroup, this`buildingCuePoint
      modifies this`buildingSeek
      ensures Understood() == OnOpen(old(Understood()), id)
    {
      if id == TRACK_ENTRY {
        buildingTrack := Some(EMPTY_TRACK);
      } else if id == CLUSTER {
        clusterTimecode := 0;
      } else if id == BLOCK_GROUP {
        buildingBlockGroup := Some(EMPTY_GROUP);
      } else if id == CUE_POINT {
        buildingCuePoint := Some(CueScratch(None, None));
      } else if id == SEEK {
        buildingSeek := Some(SeekScratch(None, None));
      }
    }

    method CloseElement(id: nat)
      requires Valid()
      modifies this`tracks, this`buildingTrack, this`buildingBlockGroup, this`frames, this`buildingCuePoint, this`cues,
               this`buildingSeek, this`seekHead
      ensures Understood() == OnClose(old(Understood()), id)
    {
      if id == TRACK_ENTRY {
        if buildingTrack.Some? {
          var finished := FinishTrack(buildingTrack.value);
          buildingTrack := None;
          if finished.Some? {
            tracks := tracks + [finished.value];
          }
        }
      } else if id == BLOCK_GROUP {
        FinishBlockGroup();
      } else if id == CUE_POINT {
        if buildingCuePoint.Some? {
          var scratch := buildingCuePoint.value;
          buildingCuePoint := None;
          if scratch.timeTicks.Some? && scratch.clusterPosition.Some? {
            cues := cues + [CuePoint(scratch.timeTicks.value, scratch.clusterPosition.value)];
          }
        }
      } else if id == SEEK {
        if buildingSeek.Some? {
          var scratch := buildingSeek.value;
          buildingSeek := None;
          if scratch.id.Some? && scratch.position.Some? {
            seekHead := seekHead + [SeekEntry(scratch.id.value, scratch.position.value)];
          }
        }
      }
    }

    method FinishBlockGroup()
      requires Valid()
      modifies this`buildingBlockGroup, this`frames
      ensures Understood() == OnClose(old(Understood()), BLOCK_GROUP)
    {
      if buildingBlockGroup.None? {
        return;
      }
      var scratch := buildingBlockGroup.value;
      buildingBlockGroup := None;
      assert polled + frames + [] == polled + frames;
      if scratch.block.None? {
        return;
      }
      QueueFrames(scratch.block.value, !scratch.hasReference, scratch.durationTicks);
    }

    method QueueFrames(block: ParsedBlock, isKeyframe: bool, durationTicks: Option<nat>)
      modifies this`frames
      ensures frames == old(frames) + BlockFrames(block, isKeyframe, durationTicks)
      ensures polled + frames == polled + old(frames) + BlockFrames(block, isKeyframe, durationTicks)
    {
      for i := 0 to |block.payloads|
        invariant frames == old(frames) + BlockFrames(block, isKeyframe, durationTicks)[..i]
      {
        frames := frames + [Frame(block.trackNumber, block.timecode, isKeyframe, durationTicks, block.payloads[i])];
      }
    }

    method HandleLeafElement(id: nat, start: nat, end: nat)
      requires Valid() && start <= end <= |buffer|
      modifies this`buildingTrack, this`clusterTimecode, this`frames, this`buildingBlockGroup, this`buildingCuePoint,
               this`buildingSeek, this`timecodeScale
      ensures Understood() == HandleLeaf(old(Understood()), TopId(View().stack), id, buffer[start..end])
    {
      hide TrackLeaf, BlockLeaf, IndexLeaf;
      assert TopId(View().stack) == TopId(stack);
      if IsTrackLeaf(id) {
        if buildingTrack.Some? {
          HandleTrackLeaf(id, start, end);
        }
      } else if IsBlockLeaf(id) {
        HandleBlockLeaf(id, start, end);
      } else {
        HandleIndexLeaf(id, start, end);
      }
    }

    method HandleTrackLeaf(id: nat, start: nat, end: nat)
      requires Valid() && start <= end <= |buffer| && buildingTrack.Some? && IsTrackLeaf(id)
      modifies this`buildingTrack
      ensures buildingTrack == Some(TrackLeaf(old(buildingTrack.value), TopId(stack), id, buffer[start..end]))
    {
      var body, scratch := buffer[start..end], buildingTrack.value;
      if id == CODEC_ID {
        buildingTrack := Some(scratch.(codecId := Some(body)));
        return;
      }
      if id == CODEC_PRIVATE {
        buildingTrack := Some(scratch.(codecPrivate := Some(body)));
        return;
      }
      if id == SAMPLING_FREQUENCY {
        if TopIs(AUDIO) && (|body| == 4 || |body| == 8) {
          buildingTrack := Some(scratch.(sampleRate := Some(body)));
        }
        return;
      }
      var v := ReadUnsigned(body);
      if v.None? {
        return;
      }
      if id == TRACK_NUMBER {
        buildingTrack := Some(scratch.(trackNumber := v));
      } else if id == TRACK_TYPE {
        buildingTrack := Some(scratch.(trackType := Some(AsU8(v.value))));
      } else if id == PIXEL_WIDTH && TopIs(VIDEO) {
        buildingTrack := Some(scratch.(width := AsU32(v.value)));
      } else if id == PIXEL_HEIGHT && TopIs(VIDEO) {
        buildingTrack := Some(scratch.(height := AsU32(v.value)));
      } else if id == CHANNELS && TopIs(AUDIO) {
        buildingTrack := Some(scratch.(channels := Some(AsU32(v.value))));
      }
    }

    method HandleBlockLeaf(id: nat, start: nat, end: nat)
      requires Valid() && start <= end <= |buffer| && IsBlockLeaf(id)
      modifies this`clusterTimecode, this`frames, this`buildingBlockGroup
      ensures Understood() == BlockLeaf(old(Understood()), id, buffer[start..end])
    {
      hide ParseBlock, ReadUint;
      var body := buffer[start..end];
      if id == TIMECODE {
        var v := ReadUnsigned(body);
        if v.Some? {
          clusterTimecode := AsI64(v.value);
        }
      } else if id == SIMPLE_BLOCK {
        var block := ParseBlockCommon(body);
        if block.Some? {
          QueueFrames(block.value, block.value.flags >= 0x80, None);
        }
      } else if buildingBlockGroup.Some? {
        var scratch := buildingBlockGroup.value;
        if id == BLOCK {
          var block := ParseBlockCommon(body);
          if block.Some? {
            buildingBlockGroup := Some(scratch.(block := block));
          }
        } else if id == BLOCK_DURATION {
          var v := ReadUnsigned(body);
          buildingBlockGroup := Some(scratch.(durationTicks := v));
        } else {
          buildingBlockGroup := Some(scratch.(hasReference := true));
        }
      }
    }

    method HandleIndexLeaf(id: nat, start: nat, end: nat)
      requires Valid() && start <= end <= |buffer|
      modifies this`buildingCuePoint, this`buildingSeek, this`timecodeScale
      ensures Understood() == IndexLeaf(old(Understood()), TopId(stack), id, buffer[start..end])
    {
      hide ReadUint;
      var v := ReadUnsigned(buffer[start..end]);
      if id == TIMECODE_SCALE {
        if v.Some? {
          timecodeScale := if v.value < 1 then 1 else v.value;
        }
      } else if id == CUE_TIME && TopIs(CUE_POINT) {
        if buildingCuePoint.Some? {
          buildingCuePoint := Some(buildingCuePoint.value.(timeTicks := v));
        }
      } else if id == CUE_CLUSTER_POSITION && TopIs(CUE_TRACK_POSITIONS) {
        if buildingCuePoint.Some? {
          buildingCuePoint := Some(buildingCuePoint.value.(clusterPosition := v));
        }
      } else if id == SEEK_ID && TopIs(SEEK) {
        if v.Some? && buildingSeek.Some? {
          buildingSeek := Some(buildingSeek.value.(id := Some(AsU32(v.value))));
        }
      } else if id == SEEK_POSITION && TopIs(SEEK) {
        if buildingSeek.Some? {
          buildingSeek := Some(buildingSeek.value.(position := v));
        }
      }
    }

    predicate TopIs(id: nat)
      reads this
    {
      |stack| > 0 && stack[|stack| - 1].id == id
    }

    method ParseBlockCommon(body: seq<Byte>) returns (r: Option<ParsedBlock>)
      ensures r == ParseBlock(body, clusterTimecode)
    {
      hide SizeAt, SplitRanges;
      var track := DecodeSize(body);
      if track.Err? {
        return None;
      }
      var n := track.value.1;
      if |body| < n + 3 {
        return None;
      }
      var flags := body[n + 2];
      var ranges := Split(body, n + 3, FromFlags(flags));
      if ranges.None? {
        return None;
      }
      SplitTiles(body, n + 3, FromFlags(flags));
      var payloads := Slices(body, ranges.value);
      var timecode := ClampI64(clusterTimecode + SignedPair(body[n], body[n + 1]));
      return Some(ParsedBlock(track.value.0.value, timecode, flags, payloads));
    }

    method RebaseEnds(drained: nat)
      modifies this`stack
      ensures |stack| == |old(stack)| && forall k | 0 <= k < |stack| :: stack[k] == Drain(old(stack)[k], drained)
    {
      hide Drain;
      for i := 0 to |stack|
        invariant |stack| == |old(stack)|
        invariant forall k | 0 <= k < i :: stack[k] == Drain(old(stack)[k], drained)
        invariant forall k | i <= k < |stack| :: stack[k] == old(stack)[k]
      {
        stack := stack[i := Drain(stack[i], drained)];
      }
    }

    method CompactBuffer()
      requires Valid()
      modifies this`buffer, this`stack, this`readPos, this`dropped
      ensures Valid() && View() == Compact(old(View()))
    {
      hide Shifted, Drain, WrapEnds, Demuxer.Understood;
      var drained := readPos;
      if drained == 0 {
        return;
      }
      if drained < COMPACT_AT && drained * 2 < |buffer| {
        return;
      }
      buffer := buffer[drained..];
      RebaseEnds(drained);
      readPos := 0;
      ghost var was := dropped;
      dropped := dropped + drained;
      DrainedView(old(stack), stack, drained, was);
      assert buffer[0..] == buffer;
    }
  }

  /** A 64-bit `end -= drained`. */
  function Drain(e: OpenElement, drained: nat): OpenElement
  {
    if e.end.None? then e
    else if e.end.value >= drained then e.(end := Some(e.end.value - drained))
    else e.(end := Some((e.end.value - drained as int) % U64_LIMIT))
  }

  function ShiftEnd(end: Option<nat>, shift: nat): Option<nat>
  {
    match end case None => None case Some(v) => Some(v + shift)
  }

  function Shifted(stack: seq<OpenElement>, shift: nat): (r: seq<OpenElement>)
    ensures |r| == |stack|
  {
    seq(|stack|, i requires 0 <= i < |stack| => OpenElement(stack[i].id, ShiftEnd(stack[i].end, shift)))
  }

  lemma ShiftedFront(stack: seq<OpenElement>, shift: nat)
    requires stack != []
    ensures Shifted(stack[..|stack| - 1], shift) == Shifted(stack, shift)[..|stack| - 1]
  {
  }

  lemma ShiftedPush(stack: seq<OpenElement>, e: OpenElement, shift: nat)
    ensures Shifted(stack + [e], shift) == Shifted(stack, shift) + [OpenElement(e.id, ShiftEnd(e.end, shift))]
  {
  }

  lemma DrainedView(before: seq<OpenElement>, after: seq<OpenElement>, drained: nat, was: nat)
    requires |before| == |after| && forall k | 0 <= k < |before| :: after[k] == Drain(before[k], drained)
    ensures Shifted(after, was + drained) == WrapEnds(Shifted(before, was), was + drained)
  {
  }

  /** An unsigned body, most significant byte first; nothing for more than eight bytes. */
  method ReadUnsigned(body: seq<Byte>) returns (r: Option<nat>)
    ensures r == ReadUint(body)
  {
    if |body| > 8 {
      return None;
    }
    var v: nat := 0;
    for i := 0 to |body|
      invariant v == FromBigEndian(body[..i])
    {
      assert body[..i + 1][..i] == body[..i];
      v := v * 256 + body[i];
    }
    assert body[..|body|] == body;
    return Some(v);
  }

  /** Feeds a stream cut into chunks, polling after each, and returns every frame that came out. */
  method DemuxChunks(chunks: seq<seq<Byte>>) returns (frames: seq<Frame>)
    ensures frames == PushAll(chunks).core.frames
  {
    hide Push;
    var d := new Demuxer();
    frames := [];
    for i := 0 to |chunks|
      invariant d.Valid() && fresh(d)
      invariant d.View() == PushAll(chunks[..i])
      invariant frames == d.polled && d.frames == []
    {
      assert chunks[..i + 1][..i] == chunks[..i];
      d.PushBytes(chunks[i]);
      while |d.frames| > 0
        invariant d.Valid() && d.View() == PushAll(chunks[..i + 1]) && frames == d.polled
        decreases |d.frames|
      {
        var frame := d.PollFrame();
        frames := frames + [frame.value];
      }
    }
    assert chunks[..|chunks|] == chunks;
    assert d.polled + d.frames == frames;
  }
}
