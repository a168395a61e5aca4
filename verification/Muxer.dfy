/** The writer: an output buffer drained by polling, and the blocks of the open Cluster. */
module Mux {
  import opened Bytes
  import opened Vint
  import opened Lacing
  import opened Ids
  import opened DemuxSpec
  import opened MuxSpec

  method WriteBinaryElem(id: nat, value: seq<Byte>, out: seq<Byte>) returns (r: seq<Byte>)
    requires id < 0x1_0000_0000
    ensures r == out + Elem(id, value)
  {
    hide IdBytes, SizeBytes;
    r := EncodeId(id, out);
    r := EncodeSize(|value|, r);
    r := r + value;
  }

  method WriteUintElem(id: nat, value: nat, out: seq<Byte>) returns (r: seq<Byte>)
    requires id < 0x1_0000_0000 && value < U64_LIMIT
    ensures r == out + UintElem(id, value)
  {
    hide IdBytes, SizeBytes, BigEndian;
    var be := BigEndian(value, 8);
    var firstNonzero := 0;
    assert be[0..] == be;
    while firstNonzero < 7 && be[firstNonzero] == 0
      invariant 0 <= firstNonzero <= 7
      invariant DropZeros(be) == DropZeros(be[firstNonzero..])
    {
      assert be[firstNonzero..][1..] == be[firstNonzero + 1..];
      firstNonzero := firstNonzero + 1;
    }
    r := EncodeId(id, out);
    r := EncodeSize(8 - firstNonzero, r);
    r := r + be[firstNonzero..];
  }

  method WriteEbmlHeader(out: seq<Byte>) returns (r: seq<Byte>)
    ensures r == out + Elem(EBML_HEADER, EbmlHeaderBody())
  {
    hide UintElem, Elem;
    var body := WriteUintElem(EBML_VERSION, 1, []);
    body := WriteUintElem(EBML_READ_VERSION, 1, body);
    body := WriteUintElem(EBML_MAX_ID_LENGTH, 4, body);
    body := WriteUintElem(EBML_MAX_SIZE_LENGTH, 8, body);
    body := WriteBinaryElem(DOC_TYPE, WEBM, body);
    body := WriteUintElem(DOC_TYPE_VERSION, 2, body);
    body := WriteUintElem(DOC_TYPE_READ_VERSION, 2, body);
    assert body == EbmlHeaderBody();
    r := WriteBinaryElem(EBML_HEADER, body, out);
  }

  method WriteSegmentInfo(scale: nat, out: seq<Byte>) returns (r: seq<Byte>)
    requires scale < U64_LIMIT
    ensures r == out + Elem(SEGMENT_INFO, UintElem(TIMECODE_SCALE, scale))
  {
    hide UintElem, Elem;
    var body := WriteUintElem(TIMECODE_SCALE, scale, []);
    assert body == UintElem(TIMECODE_SCALE, scale);
    r := WriteBinaryElem(SEGMENT_INFO, body, out);
  }

  /** Field widths of a track description: 64-bit number, 8-bit type, 32-bit sizes and channels, 8-byte sample rate. */
  predicate TrackFields(t: TrackInfo)
  {
    && t.trackNumber < U64_LIMIT && t.trackType < 0x100
    && t.width < 0x1_0000_0000 && t.height < 0x1_0000_0000 && t.channels < 0x1_0000_0000
    && |t.sampleRate| == 8
  }

  method WriteTracks(tracks: seq<TrackInfo>, out: seq<Byte>) returns (r: seq<Byte>)
    requires forall i | 0 <= i < |tracks| :: TrackFields(tracks[i])
    ensures r == out + TracksElem(tracks)
  {
    hide Elem, TrackEntryBody;
    if |tracks| == 0 {
      return out;
    }
    var body := [];
    for i := 0 to |tracks|
      invariant body == TrackEntries(tracks[..i])
    {
      assert tracks[..i + 1][..i] == tracks[..i];
      body := WriteTrackEntry(tracks[i], body);
    }
    assert tracks[..|tracks|] == tracks;
    r := WriteBinaryElem(TRACKS, body, out);
  }

  method WriteTrackEntry(t: TrackInfo, out: seq<Byte>) returns (r: seq<Byte>)
    requires TrackFields(t)
    ensures r == out + Elem(TRACK_ENTRY, TrackEntryBody(t))
  {
    hide UintElem, Elem;
    var body := WriteUintElem(TRACK_NUMBER, t.trackNumber, []);
    body := WriteUintElem(TRACK_TYPE, t.trackType, body);
    body := WriteBinaryElem(CODEC_ID, t.codecId, body);
    if t.codecPrivate.Some? {
      body := WriteBinaryElem(CODEC_PRIVATE, t.codecPrivate.value, body);
    }
    if t.trackType == VIDEO_TYPE {
      var video := WriteUintElem(PIXEL_WIDTH, t.width, []);
      video := WriteUintElem(PIXEL_HEIGHT, t.height, video);
      assert video == VideoBody(t);
      body := WriteBinaryElem(VIDEO, video, body);
    } else {
      var audio := WriteBinaryElem(SAMPLING_FREQUENCY, t.sampleRate, []);
      audio := WriteUintElem(CHANNELS, t.channels, audio);
      assert audio == AudioBody(t);
      body := WriteBinaryElem(AUDIO, audio, body);
    }
    assert body == TrackEntryBody(t);
    r := WriteBinaryElem(TRACK_ENTRY, body, out);
  }

  method WriteSimpleBlock(track: nat, relative: int, isKeyframe: bool, payload: seq<Byte>, out: seq<Byte>)
    returns (r: seq<Byte>)
    requires Fits16(relative)
    ensures r == out + BlockElem(Block(track, relative, isKeyframe, [payload]))
  {
    hide Elem, SizeBytes;
    var body := EncodeSize(track, []);
    body := body + SignedPairBytes(relative);
    body := body + [if isKeyframe then 0x80 else 0];
    body := body + payload;
    assert body == BlockBody(Block(track, relative, isKeyframe, [payload]));
    r := WriteBinaryElem(SIMPLE_BLOCK, body, out);
  }

  method WriteLacedSimpleBlock(track: nat, relative: int, isKeyframe: bool, payloads: seq<seq<Byte>>, out: seq<Byte>)
    returns (r: seq<Byte>)
    requires Fits16(relative) && 2 <= |payloads| <= MAX_LACED_FRAMES
    ensures r == out + BlockElem(Block(track, relative, isKeyframe, payloads))
  {
    hide Elem, SizeBytes, LaceFields;
    ghost var block := Block(track, relative, isKeyframe, payloads);
    var body := EncodeSize(track, []);
    body := body + SignedPairBytes(relative);
    body := body + [(if isKeyframe then 0x80 else 0) + 6];
    assert body == BlockHead(block);
    var count: seq<Byte> := [|payloads| - 1];
    body := body + count;
    var sizes := Lengths(payloads[..|payloads| - 1]);
    body := EncodeEbmlLaceSizes(sizes, body);
    ghost var fields := body;
    for i := 0 to |payloads|
      invariant body == fields + Concat(payloads[..i])
    {
      assert payloads[..i + 1][..i] == payloads[..i];
      body := body + payloads[i];
    }
    assert payloads[..|payloads|] == payloads;
    assert LacedBody(payloads) == count + LaceFields(sizes) + Concat(payloads);
    Regroup(BlockHead(block), count, LaceFields(sizes), Concat(payloads));
    r := WriteBinaryElem(SIMPLE_BLOCK, body, out);
  }

  lemma Regroup(a: seq<Byte>, b: seq<Byte>, c: seq<Byte>, d: seq<Byte>)
    ensures a + (b + c + d) == a + b + c + d
  {
  }

  class Muxer {
    var tracks: seq<TrackInfo>
    var timecodeScale: nat
    var output: seq<Byte>
    var outputConsumed: nat
    var cluster: seq<Byte>
    var clusterTimecode: Option<I64>
    var clusterFrames: nat
    var batch: nat

    /** Whether the header has been written: tracks are added before, frames pushed after. */
    ghost var live: bool
    ghost var polled: seq<Byte>

    ghost predicate Valid()
      reads this
    {
      && outputConsumed <= |output| && outputConsumed < 0x1_0000
      && timecodeScale < U64_LIMIT
      && (forall i | 0 <= i < |tracks| :: TrackFields(tracks[i]))
    }

    ghost function View(): MuxState
      requires Valid()
      reads this
    {
      MuxState(tracks, timecodeScale, batch, polled, output[outputConsumed..], cluster, clusterTimecode, clusterFrames)
    }

    constructor WithOptions(scale: nat, batchSize: nat)
      requires scale < U64_LIMIT
      ensures Valid() && View() == NewMux(scale, batchSize) && !live
    {
      tracks, output, cluster := [], [], [];
      timecodeScale := if scale < 1 then 1 else scale;
      batch := if batchSize < 1 then 1 else batchSize;
      outputConsumed, clusterFrames := 0, 0;
      clusterTimecode := None;
      live, polled := false, [];
    }

    method RegisterTrack(t: TrackInfo) returns (error: Option<MuxError>)
      requires Valid() && !live && TrackFields(t)
      modifies this`tracks
      ensures Valid() && (View(), error) == AddTrack(old(View()), t)
    {
      if t.trackNumber == 0 {
        return Some(InvalidTrackNumber);
      }
      var known := HasTrack(t.trackNumber);
      if known {
        return Some(DuplicateTrack(t.trackNumber));
      }
      tracks := tracks + [t];
      return None;
    }

    method HasTrack(number: nat) returns (found: bool)
      ensures found == Registered(tracks, number)
    {
      for i := 0 to |tracks|
        invariant forall k | 0 <= k < i :: tracks[k].trackNumber != number
      {
        if tracks[i].trackNumber == number {
          return true;
        }
      }
      return false;
    }

    method BeginStream()
      requires Valid() && !live
      modifies this`output, this`live
      ensures Valid() && View() == Begin(old(View())) && live
    {
      hide Elem, UintElem, IdBytes, UnknownBytes, TracksElem, EbmlHeaderBody;
      ghost var before := output;
      output := WriteEbmlHeader(output);
      output := EncodeId(SEGMENT, output);
      output := EncodeUnknownSize(4, output);
      output := WriteSegmentInfo(timecodeScale, output);
      output := WriteTracks(tracks, output);
      assert output == before + FileHeader(timecodeScale, tracks);
      assert output[outputConsumed..] == before[outputConsumed..] + FileHeader(timecodeScale, tracks);
      live := true;
    }

    method PushOneFrame(track: nat, timecode: I64, isKeyframe: bool, payload: seq<Byte>)
      returns (error: Option<MuxError>)
      requires Valid() && live
      modifies this`output, this`cluster, this`clusterTimecode, this`clusterFrames
      ensures Valid()
      ensures error == Refusal(tracks, PushFrame(track, timecode, isKeyframe, payload))
      ensures View() == Apply(old(View()), PushFrame(track, timecode, isKeyframe, payload))
    {
      hide BlockElem, CloseCluster;
      var known := HasTrack(track);
      if !known {
        return Some(UnknownTrack(track));
      }
      OpenedFits(View(), timecode);
      var relative := OpenCluster(timecode);
      cluster := WriteSimpleBlock(track, relative, isKeyframe, payload, cluster);
      clusterFrames := clusterFrames + 1;
      return None;
    }

    method PushLacedFrames(track: nat, timecode: I64, isKeyframe: bool, payloads: seq<seq<Byte>>)
      returns (error: Option<MuxError>)
      requires Valid() && live
      modifies this`output, this`cluster, this`clusterTimecode, this`clusterFrames
      ensures Valid()
      ensures error == Refusal(tracks, PushLaced(track, timecode, isKeyframe, payloads))
      ensures View() == Apply(old(View()), PushLaced(track, timecode, isKeyframe, payloads))
    {
      hide BlockElem, CloseCluster;
      if |payloads| == 0 {
        return Some(EmptyLace);
      }
      if |payloads| > MAX_LACED_FRAMES {
        return Some(LaceTooLarge(|payloads|));
      }
      var known := HasTrack(track);
      if !known {
        return Some(UnknownTrack(track));
      }
      OpenedFits(View(), timecode);
      var relative := OpenCluster(timecode);
      if |payloads| == 1 {
        assert payloads == [payloads[0]];
        cluster := WriteSimpleBlock(track, relative, isKeyframe, payloads[0], cluster);
      } else {
        cluster := WriteLacedSimpleBlock(track, relative, isKeyframe, payloads, cluster);
      }
      clusterFrames := clusterFrames + 1;
      return None;
    }

    /** The distance from the base of the Cluster that `timecode` goes into, which may have to be started for it. */
    method OpenCluster(timecode: I64) returns (relative: int)
      requires Valid()
      modifies this`output, this`cluster, this`clusterTimecode, this`clusterFrames
      ensures Valid() && View() == OpenClusterFor(old(View()), timecode)
      ensures clusterTimecode.Some? && relative == Since(timecode, clusterTimecode.value)
    {
      hide CloseCluster;
      var needsNew := clusterTimecode.None?;
      if !needsNew {
        needsNew := clusterFrames >= batch || !Fits16(Since(timecode, clusterTimecode.value));
      }
      if needsNew {
        FinishCluster();
        clusterTimecode := Some(timecode);
      }
      relative := Since(timecode, clusterTimecode.value);
    }

    method FlushCluster()
      requires Valid() && live
      modifies this`output, this`cluster, this`clusterTimecode, this`clusterFrames
      ensures Valid() && View() == Apply(old(View()), Flush)
    {
      FinishCluster();
    }

    method FinishCluster()
      requires Valid()
      modifies this`output, this`cluster, this`clusterTimecode, this`clusterFrames
      ensures Valid() && View() == CloseCluster(old(View()))
    {
      hide Elem, UintElem;
      if clusterTimecode.None? || |cluster| == 0 {
        cluster, clusterTimecode, clusterFrames := [], None, 0;
        return;
      }
      var base := clusterTimecode.value;
      ghost var before := output;
      var body := WriteUintElem(TIMECODE, if base < 0 then 0 else base, []);
      body := body + cluster;
      assert body == ClusterBody(base, cluster);
      output := WriteBinaryElem(CLUSTER, body, output);
      assert output[outputConsumed..] == before[outputConsumed..] + ClusterElem(base, cluster);
      cluster, clusterTimecode, clusterFrames := [], None, 0;
    }

    /** Hands over the output not yet taken, and drops it once 64 KiB have been taken. */
    method PollBytes() returns (bytes: seq<Byte>)
      requires Valid() && live
      modifies this`output, this`outputConsumed, this`polled
      ensures Valid() && View() == Apply(old(View()), Poll)
      ensures bytes == old(View()).pending && polled == old(polled) + bytes
    {
      bytes := output[outputConsumed..];
      if |bytes| == 0 {
        assert polled + bytes == polled;
        return;
      }
      outputConsumed := |output|;
      polled := polled + bytes;
      if outputConsumed >= COMPACT_AT {
        output := output[outputConsumed..];
        outputConsumed := 0;
      }
    }
  }
}
