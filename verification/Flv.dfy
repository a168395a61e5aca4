/** The FLV facade in place: a muxer of two track slots and a demuxer with a stream cache, each over the tag layer. */
module Flv {
  import opened Bytes
  import opened FlvTags
  import opened FlvSpec

  class FlvMuxer {
    const inner: TagWriter
    var video: Option<MuxTrack>
    var audio: Option<MuxTrack>

    ghost function View(): MuxState
      reads this, inner
    {
      MuxState(inner.headerWritten, video, audio)
    }

    constructor ()
      ensures View() == NEW_MUX && fresh(inner)
    {
      inner := new TagWriter();
      video, audio := None, None;
    }

    method WriteHeader(hasAudio: bool, hasVideo: bool, out: seq<Byte>) returns (r: seq<Byte>)
      modifies inner
      ensures View() == old(View()).(headerWritten := true) && r == out + FileHeader(hasAudio, hasVideo)
    {
      r := inner.WriteHeader(hasAudio, hasVideo, out);
    }

    method RegisterTrack(stream: StreamInfo) returns (error: Option<FlvError>)
      modifies this
      ensures (View(), error) == AddTrack(old(View()), stream)
    {
      match stream {
        case VideoStream(_, codec, _, _, _, extraData) =>
          if codec != H264 {
            return Some(UnsupportedCodec(codec));
          }
          video := Some(MuxTrack(codec, extraData, false));
        case AudioStream(_, codec, _, _, _, extraData) =>
          if codec != Aac && codec != Mp3 {
            return Some(UnsupportedCodec(codec));
          }
          audio := Some(MuxTrack(codec, extraData, false));
      }
      error := None;
    }

    method PushOnePacket(packet: Packet, out: seq<Byte>) returns (r: seq<Byte>, error: Option<FlvError>)
      modifies this
      ensures var pushed := PushPacket(old(View()), packet);
              View() == pushed.mux && r == out + Encoded(pushed.tags) && error == pushed.error
    {
      hide PushVideo, PushAudio, Encoded;
      if packet.streamId == VIDEO_STREAM_ID {
        r, error := PushVideoPacket(packet, out);
      } else if packet.streamId == AUDIO_STREAM_ID {
        r, error := PushAudioPacket(packet, out);
      } else {
        NothingEncoded();
        return out + [], Some(UnregisteredStream(packet.streamId));
      }
    }

    method PushVideoPacket(packet: Packet, out: seq<Byte>) returns (r: seq<Byte>, error: Option<FlvError>)
      modifies this
      ensures var pushed := PushVideo(old(View()), packet);
              View() == pushed.mux && r == out + Encoded(pushed.tags) && error == pushed.error
    {
      hide Encoded, TagBytes, AvcNaluData;
      NothingEncoded();
      r := out + [];
      if video.None? {
        return r, Some(UnregisteredStream(packet.streamId));
      }
      var refused: Option<TagError>;
      ghost var head := HeadTag(video.value.(codec := H264), packet);
      var data := Tag(Video, ClampTimestamp(packet.dts), AvcNaluData(packet));
      EncodedPair(out, head, data);
      if !video.value.headerWritten {
        var seqHeader := Tag(Video, ClampTimestamp(packet.dts), AvcSeqHeaderData(video.value.extraData));
        r, refused := inner.WriteTag(seqHeader, r);
        if refused.Some? {
          return r, Some(TagFailed(refused.value));
        }
        video := Some(video.value.(headerWritten := true));
      }
      r, refused := inner.WriteTag(data, r);
      error := if refused.Some? then Some(TagFailed(refused.value)) else None;
    }

    method PushAudioPacket(packet: Packet, out: seq<Byte>) returns (r: seq<Byte>, error: Option<FlvError>)
      modifies this
      ensures var pushed := PushAudio(old(View()), packet);
              View() == pushed.mux && r == out + Encoded(pushed.tags) && error == pushed.error
    {
      hide Encoded, TagBytes;
      NothingEncoded();
      r := out + [];
      if audio.None? {
        return r, Some(UnregisteredStream(packet.streamId));
      }
      var refused: Option<TagError>;
      match audio.value.codec {
        case Aac =>
          ghost var head := HeadTag(audio.value, packet);
          var data := Tag(Audio, ClampTimestamp(packet.dts), AacRawData(packet.payload));
          EncodedPair(out, head, data);
          if !audio.value.headerWritten {
            var seqHeader := Tag(Audio, ClampTimestamp(packet.dts), AacSeqHeaderData(audio.value.extraData));
            r, refused := inner.WriteTag(seqHeader, r);
            if refused.Some? {
              return r, Some(TagFailed(refused.value));
            }
            audio := Some(audio.value.(headerWritten := true));
          }
          r, refused := inner.WriteTag(data, r);
        case Mp3 =>
          var data := Tag(Audio, ClampTimestamp(packet.dts), Mp3Data(packet.payload));
          EncodedPair(out, data, data);
          r, refused := inner.WriteTag(data, r);
        case other =>
          return r, Some(UnsupportedCodec(other));
      }
      error := if refused.Some? then Some(TagFailed(refused.value)) else None;
    }

    /** A tag the caller has framed, past the tracks. */
    method WriteRawTag(tag: Tag, out: seq<Byte>) returns (r: seq<Byte>, error: Option<FlvError>)
      ensures var pushed := WriteOne(View(), tag);
              r == out + Encoded(pushed.tags) && error == pushed.error
    {
      hide TagBytes, Encoded;
      NothingEncoded();
      EncodedPair(out, tag, tag);
      var refused;
      r, refused := inner.WriteTag(tag, out + []);
      error := if refused.Some? then Some(TagFailed(refused.value)) else None;
    }
  }

  lemma NothingEncoded()
    ensures Encoded([]) == []
  {
  }

  lemma EncodedPair(out: seq<Byte>, a: Tag, b: Tag)
    ensures out + Encoded([a]) == out + [] + TagBytes(a) && out + Encoded([b]) == out + [] + TagBytes(b)
    ensures out + Encoded([a] + [b]) == out + [] + TagBytes(a) + TagBytes(b)
    ensures [a] + [] == [a]
  {
    hide TagBytes;
    assert Encoded([a]) == TagBytes(a) && Encoded([b]) == TagBytes(b);
    assert [a, b][..1] == [a];
    assert Encoded([a, b]) == Encoded([a]) + TagBytes(b);
  }

  class FlvDemuxer {
    const inner: TagReader
    var streams: seq<StreamInfo>
    var videoExtra: Option<seq<Byte>>
    var audioExtra: Option<seq<Byte>>

    /** Every packet polled so far. */
    ghost var polled: seq<Packet>

    ghost function View(): DemuxState
      reads this, inner
    {
      DemuxState(inner.View(), Listened(streams, videoExtra, audioExtra, polled))
    }

    constructor ()
      ensures View() == NEW_DEMUX && fresh(inner)
    {
      inner := new TagReader();
      streams, videoExtra, audioExtra, polled := [], None, None, [];
    }

    method PushBytes(chunk: seq<Byte>)
      modifies inner
      ensures View() == Feed(old(View()), chunk)
    {
      inner.PushBytes(chunk);
    }

    /** Handles tag after tag up to the first that yields a packet. */
    method PollPacket() returns (packet: Option<Packet>)
      modifies this, inner
      ensures Run(View()) == Run(old(View()))
      ensures packet.None? ==> View() == Run(View()) && polled == old(polled)
      ensures packet.Some? ==> polled == old(polled) + [packet.value] && |inner.buf| < |old(inner.buf)|
    {
      hide Run, PollTag, HandleVideo, HandleAudio;
      while true
        invariant Run(View()) == Run(old(View())) && polled == old(polled) && |inner.buf| <= |old(inner.buf)|
        decreases |inner.buf|
      {
        ghost var before := View();
        var tag := inner.PollOneTag();
        PollingRuns(before);
        if tag.Err? || tag.value.None? {
          return None;
        }
        match tag.value.value.tagType {
          case Video =>
            packet := HandleVideoTag(tag.value.value);
          case Audio =>
            packet := HandleAudioTag(tag.value.value);
          case ScriptData =>
            packet := None;
        }
        if packet.Some? {
          return packet;
        }
      }
    }

    method HandleVideoTag(tag: Tag) returns (packet: Option<Packet>)
      modifies this
      ensures View() == old(View()).(heard := HandleVideo(old(View()).heard, tag))
      ensures polled == old(polled) + if packet.Some? then [packet.value] else []
    {
      hide FromBigEndian, HasStream;
      var d := tag.data;
      if |d| == 0 {
        return None;
      }
      var frameType, codecId := d[0] / 16, d[0] % 16;
      if codecId != 7 {
        return None;
      }
      if |d| - 1 < 4 {
        return None;
      }
      ThreeBytes(d[2..5]);
      var raw := Word(0, d[2], d[3], d[4]);
      var compositionTime := SignExtend24(raw);
      var nalus := d[5..];
      if d[1] == 0 {
        videoExtra := Some(nalus);
        SyncVideoStream();
        return None;
      } else if d[1] == 1 {
        SyncVideoStream();
        var pts := tag.timestamp + compositionTime;
        packet := Some(Packet(VIDEO_STREAM_ID, pts, tag.timestamp, 0, frameType == 1, false, nalus));
        polled := polled + [packet.value];
      } else {
        return None;
      }
    }

    method HandleAudioTag(tag: Tag) returns (packet: Option<Packet>)
      modifies this
      ensures View() == old(View()).(heard := HandleAudio(old(View()).heard, tag))
      ensures polled == old(polled) + if packet.Some? then [packet.value] else []
    {
      hide HasStream;
      var d := tag.data;
      if |d| == 0 {
        return None;
      }
      var soundFormat := d[0] / 16;
      if soundFormat == 2 {
        audioExtra := Some(GetOr(audioExtra, []));
        SyncAudioStream(Mp3);
        packet := Some(AudioPacket(tag, d[1..]));
        polled := polled + [packet.value];
      } else if soundFormat == 10 {
        if |d| - 1 == 0 {
          return None;
        }
        if d[1] == 0 {
          audioExtra := Some(d[2..]);
          SyncAudioStream(Aac);
          return None;
        } else if d[1] == 1 {
          SyncAudioStream(Aac);
          packet := Some(AudioPacket(tag, d[2..]));
          polled := polled + [packet.value];
        } else {
          return None;
        }
      } else {
        return None;
      }
    }

    method Knows(id: nat) returns (r: bool)
      ensures r == HasStream(streams, id)
    {
      for i := 0 to |streams|
        invariant forall k | 0 <= k < i :: streams[k].id != id
      {
        if streams[i].id == id {
          return true;
        }
      }
      return false;
    }

    method SyncVideoStream()
      modifies this`streams
      ensures View() == old(View()).(heard := SyncVideo(old(View()).heard))
    {
      var known := Knows(VIDEO_STREAM_ID);
      if !known {
        streams := streams + [VideoRecord(GetOr(videoExtra, []))];
      }
    }

    method SyncAudioStream(codec: CodecKind)
      modifies this`streams
      ensures View() == old(View()).(heard := SyncAudio(old(View()).heard, codec))
    {
      var known := Knows(AUDIO_STREAM_ID);
      if !known {
        streams := streams + [AudioRecord(codec, GetOr(audioExtra, []))];
      }
    }
  }

  /** One poll of the tag layer is one or two steps of the run. */
  lemma PollingRuns(s: DemuxState)
    ensures var (reader, tag) := PollTag(s.reader);
            if tag.Ok? && tag.value.Some?
            then Run(s) == Run(DemuxState(reader, Handle(s.heard, tag.value.value))) && |reader.buf| < |s.reader.buf|
            else Run(s) == s.(reader := reader) && Run(s.(reader := reader)) == s.(reader := reader)
  {
    hide Handle, ParseHeader, ParseTag;
    var (after, more) := Step(s);
    WaitingChangesNothing(s.reader);
    WaitingChangesNothing(after.reader);
    if more && !s.reader.headerParsed {
      assert Step(after).1 == (ParseTag(after.reader).1.Ok? && ParseTag(after.reader).1.value.Some?);
    }
  }

  lemma WaitingChangesNothing(r: Reader)
    ensures if ParseHeader(r).1 == Ok(true) then ParseHeader(r).0.headerParsed else ParseHeader(r).0 == r
    ensures ParseTag(r).1.Err? || ParseTag(r).1.value.None? ==> ParseTag(r).0 == r
  {
  }

  /** Feeds a file cut into chunks, polling every packet after each. */
  method DemuxChunks(chunks: seq<seq<Byte>>) returns (packets: seq<Packet>, streams: seq<StreamInfo>)
    ensures packets == PushAll(chunks).heard.packets && streams == PushAll(chunks).heard.streams
  {
    hide Run;
    var d := new FlvDemuxer();
    packets := [];
    for i := 0 to |chunks|
      invariant fresh(d) && fresh(d.inner)
      invariant d.View() == PushAll(chunks[..i]) && packets == d.polled
    {
      assert chunks[..i + 1][..i] == chunks[..i];
      d.PushBytes(chunks[i]);
      while true
        invariant Run(d.View()) == PushAll(chunks[..i + 1]) && packets == d.polled
        decreases |d.inner.buf|
      {
        var packet := d.PollPacket();
        if packet.None? {
          break;
        }
        packets := packets + [packet.value];
      }
    }
    assert chunks[..|chunks|] == chunks;
    streams := d.streams;
  }
}
