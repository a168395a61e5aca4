/** The FLV facade: packets of an H.264 and an AAC or MP3 track, sequence headers written once, read as stream data. */
module FlvSpec {
  import opened Bytes
  import opened ReplayTime
  import opened FlvTags

  const VIDEO_STREAM_ID: nat := 0
  const AUDIO_STREAM_ID: nat := 1
  const I32_LIMIT: int := 0x8000_0000

  datatype CodecKind = H264 | Aac | Mp3 | AnotherCodec(name: string)

  const MILLISECONDS := Rational(1, 1000)

  datatype StreamInfo =
    | VideoStream(id: nat, codec: CodecKind, timeBase: Rational, width: nat, height: nat, extraData: seq<Byte>)
    | AudioStream(id: nat, codec: CodecKind, timeBase: Rational, sampleRate: nat, channels: nat, extraData: seq<Byte>)

  datatype Packet = Packet(
    streamId: nat, pts: I64, dts: I64, duration: nat, isKeyframe: bool, isDiscard: bool, payload: seq<Byte>)

  datatype FlvError = TagFailed(error: TagError) | UnsupportedCodec(codec: CodecKind) | UnregisteredStream(id: nat)

  // ---- Sub-headers ----

  /** `pts - dts`, saturating at 64 bits and then clamped to 32. */
  function CompositionTime(p: Packet): (v: int)
    ensures -I32_LIMIT <= v < I32_LIMIT
  {
    Clamp(ClampI64(p.pts - p.dts), -I32_LIMIT, I32_LIMIT - 1)
  }

  function ClampTimestamp(ts: int): U32
  {
    if 0 <= ts < 0x1_0000_0000 then ts else 0
  }

  /** What a 24-bit field keeps of a two's-complement number. */
  function Low24(v: int): (r: nat)
    ensures r < 0x100_0000
  {
    v % 0x100_0000
  }

  function SignExtend24(v: int): (r: int)
    requires 0 <= v < 0x100_0000
    ensures -0x80_0000 <= r < 0x80_0000
  {
    if v < 0x80_0000 then v else v - 0x100_0000
  }

  function AvcSeqHeaderData(avcc: seq<Byte>): seq<Byte>
  {
    [0x17, 0, 0, 0, 0] + avcc
  }

  function AvcNaluData(p: Packet): seq<Byte>
  {
    [(if p.isKeyframe then 0x17 else 0x27), 1] + BigEndian(Low24(CompositionTime(p)), 3) + p.payload
  }

  function AacSeqHeaderData(asc: seq<Byte>): seq<Byte>
  {
    [0xAF, 0] + asc
  }

  function AacRawData(raw: seq<Byte>): seq<Byte>
  {
    [0xAF, 1] + raw
  }

  function Mp3Data(frame: seq<Byte>): seq<Byte>
  {
    [0x2F] + frame
  }

  // ---- Writing ----

  datatype MuxTrack = MuxTrack(codec: CodecKind, extraData: seq<Byte>, headerWritten: bool)

  datatype MuxState = MuxState(headerWritten: bool, video: Option<MuxTrack>, audio: Option<MuxTrack>)

  const NEW_MUX := MuxState(false, None, None)

  function AddTrack(m: MuxState, stream: StreamInfo): (MuxState, Option<FlvError>)
  {
    match stream
    case VideoStream(_, codec, _, _, _, extra) =>
      if codec != H264 then (m, Some(UnsupportedCodec(codec)))
      else (m.(video := Some(MuxTrack(codec, extra, false))), None)
    case AudioStream(_, codec, _, _, _, extra) =>
      if codec != Aac && codec != Mp3 then (m, Some(UnsupportedCodec(codec)))
      else (m.(audio := Some(MuxTrack(codec, extra, false))), None)
  }

  /** What a push writes, and how it ends; a refused data tag leaves the sequence header before it written. */
  datatype Pushed = Pushed(mux: MuxState, tags: seq<Tag>, error: Option<FlvError>)

  function WriteOne(m: MuxState, tag: Tag): Pushed
  {
    match Refusal(m.headerWritten, tag)
    case Some(e) => Pushed(m, [], Some(TagFailed(e)))
    case None => Pushed(m, [tag], None)
  }

  /** The sequence header, after which the muxer is `after`; then the data. */
  function WriteBoth(m: MuxState, head: Tag, after: MuxState, data: Tag): Pushed
  {
    match Refusal(m.headerWritten, head)
    case Some(e) => Pushed(m, [], Some(TagFailed(e)))
    case None =>
      var second := WriteOne(after, data);
      second.(tags := [head] + second.tags)
  }

  function HeadTag(track: MuxTrack, p: Packet): Tag
  {
    if track.codec == H264 then Tag(Video, ClampTimestamp(p.dts), AvcSeqHeaderData(track.extraData))
    else Tag(Audio, ClampTimestamp(p.dts), AacSeqHeaderData(track.extraData))
  }

  function DataTag(codec: CodecKind, p: Packet): Tag
  {
    var at := ClampTimestamp(p.dts);
    match codec
    case H264 => Tag(Video, at, AvcNaluData(p))
    case Mp3 => Tag(Audio, at, Mp3Data(p.payload))
    case _ => Tag(Audio, at, AacRawData(p.payload))
  }

  function PushVideo(m: MuxState, p: Packet): Pushed
  {
    match m.video
    case None => Pushed(m, [], Some(UnregisteredStream(p.streamId)))
    case Some(track) =>
      if track.headerWritten then WriteOne(m, DataTag(H264, p))
      else
        var after := m.(video := Some(track.(headerWritten := true)));
        WriteBoth(m, HeadTag(track.(codec := H264), p), after, DataTag(H264, p))
  }

  function PushAudio(m: MuxState, p: Packet): Pushed
  {
    match m.audio
    case None => Pushed(m, [], Some(UnregisteredStream(p.streamId)))
    case Some(track) =>
      match track.codec
      case Aac =>
        if track.headerWritten then WriteOne(m, DataTag(Aac, p))
        else WriteBoth(m, HeadTag(track, p), m.(audio := Some(track.(headerWritten := true))), DataTag(Aac, p))
      case Mp3 => WriteOne(m, DataTag(Mp3, p))
      case other => Pushed(m, [], Some(UnsupportedCodec(other)))
  }

  function PushPacket(m: MuxState, p: Packet): Pushed
  {
    if p.streamId == VIDEO_STREAM_ID then PushVideo(m, p)
    else if p.streamId == AUDIO_STREAM_ID then PushAudio(m, p)
    else Pushed(m, [], Some(UnregisteredStream(p.streamId)))
  }

  // ---- Reading ----

  /** What has been read: streams in the order they were met, and every packet so far. */
  datatype Listened = Listened(
    streams: seq<StreamInfo>, videoExtra: Option<seq<Byte>>, audioExtra: Option<seq<Byte>>, packets: seq<Packet>)

  const SILENCE := Listened([], None, None, [])

  predicate HasStream(streams: seq<StreamInfo>, id: nat)
  {
    exists i | 0 <= i < |streams| :: streams[i].id == id
  }

  function VideoRecord(extra: seq<Byte>): StreamInfo
  {
    VideoStream(VIDEO_STREAM_ID, H264, MILLISECONDS, 0, 0, extra)
  }

  function AudioRecord(codec: CodecKind, extra: seq<Byte>): StreamInfo
  {
    AudioStream(AUDIO_STREAM_ID, codec, MILLISECONDS, 0, 0, extra)
  }

  function SyncVideo(l: Listened): Listened
  {
    if HasStream(l.streams, VIDEO_STREAM_ID) then l
    else l.(streams := l.streams + [VideoRecord(GetOr(l.videoExtra, []))])
  }

  function SyncAudio(l: Listened, codec: CodecKind): Listened
  {
    if HasStream(l.streams, AUDIO_STREAM_ID) then l
    else l.(streams := l.streams + [AudioRecord(codec, GetOr(l.audioExtra, []))])
  }

  function Emit(l: Listened, p: Packet): Listened
  {
    l.(packets := l.packets + [p])
  }

  function AudioPacket(tag: Tag, payload: seq<Byte>): Packet
  {
    Packet(AUDIO_STREAM_ID, tag.timestamp, tag.timestamp, 0, true, false, payload)
  }

  function HandleVideo(l: Listened, tag: Tag): Listened
  {
    var d := tag.data;
    if |d| < 5 || d[0] % 16 != 7 then l
    else if d[1] == 0 then SyncVideo(l.(videoExtra := Some(d[5..])))
    else if d[1] == 1 then
      FromBigEndianBound(d[2..5]);
      assert Pow256(3) == 0x100_0000;
      Emit(SyncVideo(l), Packet(VIDEO_STREAM_ID, tag.timestamp + SignExtend24(FromBigEndian(d[2..5])), tag.timestamp, 0,
                                d[0] / 16 == 1, false, d[5..]))
    else l
  }

  function HandleAudio(l: Listened, tag: Tag): Listened
  {
    var d := tag.data;
    if d == [] then l
    else if d[0] / 16 == 2 then
      Emit(SyncAudio(l.(audioExtra := Some(GetOr(l.audioExtra, []))), Mp3), AudioPacket(tag, d[1..]))
    else if d[0] / 16 != 10 || |d| < 2 then l
    else if d[1] == 0 then SyncAudio(l.(audioExtra := Some(d[2..])), Aac)
    else if d[1] == 1 then Emit(SyncAudio(l, Aac), AudioPacket(tag, d[2..]))
    else l
  }

  function Handle(l: Listened, tag: Tag): (r: Listened)
    ensures r.packets == l.packets || (|r.packets| == |l.packets| + 1 && r.packets[..|l.packets|] == l.packets)
  {
    match tag.tagType case Video => HandleVideo(l, tag) case Audio => HandleAudio(l, tag) case ScriptData => l
  }

  datatype DemuxState = DemuxState(reader: Reader, heard: Listened)

  const NEW_DEMUX := DemuxState(NEW_READER, SILENCE)

  /** One file header or one tag read, and whether there was one. */
  function Step(s: DemuxState): (r: (DemuxState, bool))
    ensures r.1 ==> |r.0.reader.buf| < |s.reader.buf|
    ensures !r.1 ==> r.0 == s
  {
    if !s.reader.headerParsed then
      var (reader, parsed) := ParseHeader(s.reader);
      if parsed == Ok(true) then (s.(reader := reader), true) else (s, false)
    else
      var (reader, tag) := ParseTag(s.reader);
      if tag.Ok? && tag.value.Some? then (DemuxState(reader, Handle(s.heard, tag.value.value)), true) else (s, false)
  }

  /** All there is to read; what stops it is a want of bytes, or an error that no more bytes will mend. */
  function Run(s: DemuxState): DemuxState
    decreases |s.reader.buf|
  {
    var (after, more) := Step(s);
    if more then Run(after) else after
  }

  function Feed(s: DemuxState, more: seq<Byte>): DemuxState
  {
    s.(reader := Fed(s.reader, more))
  }

  /** Chunks pushed one by one, with every packet polled after each. */
  function PushAll(chunks: seq<seq<Byte>>): DemuxState
  {
    if chunks == [] then NEW_DEMUX else Run(Feed(PushAll(chunks[..|chunks| - 1]), chunks[|chunks| - 1]))
  }
}
