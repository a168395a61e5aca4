/** FLV end to end: how a stream is cut never matters, and what was pushed is what comes out. */
module FlvRoundTrip {
  import opened Bytes
  import opened FlvTags
  import opened FlvSpec
  import opened Flv

  // ---- Any stream, cut in any way ----

  lemma StepFeeds(s: DemuxState, more: seq<Byte>)
    requires Step(s).1
    ensures Step(Feed(s, more)) == (Feed(Step(s).0, more), true)
  {
    hide ParseHeader, ParseTag, Handle;
    HeaderStays(s.reader, more);
    TagStays(s.reader, more);
  }

  lemma {:induction false} RunFeeds(s: DemuxState, more: seq<Byte>)
    ensures Run(Feed(s, more)) == Run(Feed(Run(s), more))
    decreases |s.reader.buf|
  {
    hide Step;
    if Step(s).1 {
      StepFeeds(s, more);
      RunFeeds(Step(s).0, more);
    }
  }

  /** However any bytes at all are cut into chunks, the same packets, streams and leftovers result. */
  lemma {:induction false} FlvChunking(chunks: seq<seq<Byte>>)
    ensures PushAll(chunks) == Run(Feed(NEW_DEMUX, Concat(chunks)))
  {
    hide Run;
    if chunks == [] {
      NothingToRead();
    } else {
      var front, last := chunks[..|chunks| - 1], chunks[|chunks| - 1];
      FlvChunking(front);
      RunFeeds(Feed(NEW_DEMUX, Concat(front)), last);
      assert Feed(Feed(NEW_DEMUX, Concat(front)), last) == Feed(NEW_DEMUX, Concat(chunks));
    }
  }

  lemma NothingToRead()
    ensures Run(Feed(NEW_DEMUX, [])) == NEW_DEMUX
  {
    assert Feed(NEW_DEMUX, []) == NEW_DEMUX;
  }

  // ---- Reading tags back ----

  function HeardAll(l: Listened, tags: seq<Tag>): Listened
  {
    if tags == [] then l else Handle(HeardAll(l, tags[..|tags| - 1]), tags[|tags| - 1])
  }

  predicate AllFit(tags: seq<Tag>)
  {
    forall i | 0 <= i < |tags| :: |tags[i].data| <= MAX_DATA_SIZE
  }

  lemma {:induction false} TagsRead(s: DemuxState, tags: seq<Tag>)
    requires s.reader.headerParsed && s.reader.buf == [] && AllFit(tags)
    ensures Run(Feed(s, Encoded(tags))) == s.(heard := HeardAll(s.heard, tags))
    decreases |tags|
  {
    hide Run, Step, Handle, TagBytes;
    if tags == [] {
      assert Feed(s, []) == s;
      Idle(s);
    } else {
      var front, last := tags[..|tags| - 1], tags[|tags| - 1];
      TagsRead(s, front);
      RunFeeds(Feed(s, Encoded(front)), TagBytes(last));
      assert Feed(Feed(s, Encoded(front)), TagBytes(last)) == Feed(s, Encoded(tags));
      OneTagRead(s.(heard := HeardAll(s.heard, front)), last);
    }
  }

  lemma Idle(s: DemuxState)
    requires s.reader.headerParsed && s.reader.buf == []
    ensures Run(s) == s
  {
  }

  lemma OneTagRead(s: DemuxState, tag: Tag)
    requires s.reader.headerParsed && s.reader.buf == [] && |tag.data| <= MAX_DATA_SIZE
    ensures Run(Feed(s, TagBytes(tag))) == s.(heard := Handle(s.heard, tag))
  {
    hide ParseTag, TagBytes, Handle;
    var fed := Feed(s, TagBytes(tag));
    assert fed.reader.buf == TagBytes(tag) + [];
    TagReads(fed.reader, tag, []);
    var after := s.(heard := Handle(s.heard, tag));
    assert Step(fed) == (after, true);
    Idle(after);
  }

  lemma FileHeaderRead(hasAudio: bool, hasVideo: bool)
    ensures Run(Feed(NEW_DEMUX, FileHeader(hasAudio, hasVideo)))
            == DemuxState(Reader([], true, hasAudio, hasVideo), SILENCE)
  {
    hide ParseHeader, FileHeader;
    var fed := Feed(NEW_DEMUX, FileHeader(hasAudio, hasVideo));
    assert fed.reader.buf == FileHeader(hasAudio, hasVideo) + [];
    HeaderReads(hasAudio, hasVideo, []);
    var after := DemuxState(Reader([], true, hasAudio, hasVideo), SILENCE);
    assert Step(fed) == (after, true);
    Idle(after);
  }

  // ---- What a muxer is told, what it writes, and what should be heard ----

  datatype Op = Register(stream: StreamInfo) | Push(packet: Packet) | Raw(tag: Tag)

  function Apply(m: MuxState, op: Op): Pushed
  {
    match op
    case Register(stream) => var (after, error) := AddTrack(m, stream); Pushed(after, [], error)
    case Push(packet) => PushPacket(m, packet)
    case Raw(tag) => WriteOne(m, tag)
  }

  /** The muxer after the file header and `ops`. */
  function MuxAfter(ops: seq<Op>): MuxState
  {
    if ops == [] then NEW_MUX.(headerWritten := true) else Apply(MuxAfter(ops[..|ops| - 1]), ops[|ops| - 1]).mux
  }

  function Tags(ops: seq<Op>): seq<Tag>
  {
    if ops == [] then []
    else Tags(ops[..|ops| - 1]) + Apply(MuxAfter(ops[..|ops| - 1]), ops[|ops| - 1]).tags
  }

  /** A packet as FLV can tell it: 32-bit milliseconds, a 24-bit offset to presentation, audio all keyframes. */
  function AsRead(p: Packet): Packet
  {
    var at := ClampTimestamp(p.dts);
    if p.streamId == VIDEO_STREAM_ID then
      Packet(VIDEO_STREAM_ID, at + SignExtend24(Low24(CompositionTime(p))), at, 0, p.isKeyframe, false, p.payload)
    else Packet(AUDIO_STREAM_ID, at, at, 0, true, false, p.payload)
  }

  /** The packets whose push went well. */
  function Accepted(ops: seq<Op>): seq<Packet>
  {
    if ops == [] then []
    else
      var before, op := ops[..|ops| - 1], ops[|ops| - 1];
      Accepted(before) + if op.Push? && Apply(MuxAfter(before), op).error.None? then [AsRead(op.packet)] else []
  }

  /** The record a push brings about: the track's data, on the first tag of its kind. */
  function Record(m: MuxState, known: seq<StreamInfo>, op: Op): seq<StreamInfo>
  {
    if !op.Push? || Apply(m, op).tags == [] || HasStream(known, op.packet.streamId) then []
    else if op.packet.streamId == VIDEO_STREAM_ID then
      [VideoRecord(if m.video.Some? then m.video.value.extraData else [])]
    else match m.audio
      case None => []
      case Some(track) => [AudioRecord(track.codec, if track.codec == Mp3 then [] else track.extraData)]
  }

  function Records(ops: seq<Op>): seq<StreamInfo>
  {
    if ops == [] then []
    else
      var before := ops[..|ops| - 1];
      Records(before) + Record(MuxAfter(before), Records(before), ops[|ops| - 1])
  }

  // ---- What each tag is heard as ----

  lemma VideoHeard(l: Listened, track: MuxTrack, p: Packet)
    requires track.codec == H264
    ensures Handle(l, HeadTag(track, p)) == SyncVideo(l.(videoExtra := Some(track.extraData)))
    ensures p.streamId == VIDEO_STREAM_ID ==> Handle(l, DataTag(H264, p)) == Emit(SyncVideo(l), AsRead(p))
  {
    hide HasStream, BigEndian, FromBigEndian;
    assert AvcSeqHeaderData(track.extraData)[5..] == track.extraData;
    var offset := Low24(CompositionTime(p));
    BigEndianRoundTrip3(offset);
    assert AvcNaluData(p)[2..5] == BigEndian(offset, 3);
    assert AvcNaluData(p)[5..] == p.payload;
  }

  lemma BigEndianRoundTrip3(v: nat)
    requires v < 0x100_0000
    ensures FromBigEndian(BigEndian(v, 3)) == v
  {
    assert Pow256(3) == 0x100_0000;
    BigEndianRoundTrip(v, 3);
  }

  lemma AudioHeard(l: Listened, track: MuxTrack, p: Packet)
    requires p.streamId == AUDIO_STREAM_ID
    ensures track.codec == Aac
            ==> Handle(l, HeadTag(track, p)) == SyncAudio(l.(audioExtra := Some(track.extraData)), Aac)
    ensures Handle(l, DataTag(Aac, p)) == Emit(SyncAudio(l, Aac), AsRead(p))
    ensures Handle(l, DataTag(Mp3, p))
            == Emit(SyncAudio(l.(audioExtra := Some(GetOr(l.audioExtra, []))), Mp3), AsRead(p))
  {
    hide HasStream;
    assert AacSeqHeaderData(track.extraData)[2..] == track.extraData;
    assert AacRawData(p.payload)[2..] == p.payload;
    assert Mp3Data(p.payload)[1..] == p.payload;
  }

  predicate HeadHeard(track: MuxTrack, l: Listened, id: nat)
  {
    track.headerWritten ==> HasStream(l.streams, id)
  }

  /** A track that has written its header has been heard of, and only supported codecs are registered. */
  predicate InStep(m: MuxState, l: Listened)
  {
    && m.headerWritten
    && (m.video.Some? ==> m.video.value.codec == H264 && HeadHeard(m.video.value, l, VIDEO_STREAM_ID))
    && (m.audio.Some? ==> m.audio.value.codec in {Aac, Mp3} && HeadHeard(m.audio.value, l, AUDIO_STREAM_ID))
    && (l.audioExtra.Some? ==> HasStream(l.streams, AUDIO_STREAM_ID))
  }

  lemma StreamAdded(streams: seq<StreamInfo>, s: StreamInfo, id: nat)
    ensures HasStream(streams + [s], id) <==> HasStream(streams, id) || s.id == id
  {
    if HasStream(streams, id) {
      var i :| 0 <= i < |streams| && streams[i].id == id;
      assert (streams + [s])[i].id == id;
    }
    if s.id == id {
      assert (streams + [s])[|streams|].id == id;
    }
  }

  lemma HeardPair(l: Listened, a: Tag, b: Tag)
    ensures HeardAll(l, []) == l && HeardAll(l, [a]) == Handle(l, a)
            && HeardAll(l, [a] + [b]) == Handle(Handle(l, a), b)
    ensures [a] + [] == [a]
  {
    hide Handle;
    assert [a][..0] == [];
    assert ([a] + [b])[..1] == [a];
  }

  predicate Heard(m: MuxState, l: Listened, op: Op)
  {
    var pushed := Apply(m, op);
    var after := HeardAll(l, pushed.tags);
    && InStep(pushed.mux, after)
    && after.streams == l.streams + Record(m, l.streams, op)
    && after.packets == l.packets + (if op.Push? && pushed.error.None? then [AsRead(op.packet)] else [])
  }

  lemma VideoSynced(l: Listened)
    ensures var known, s := HasStream(l.streams, VIDEO_STREAM_ID), SyncVideo(l);
            && s == l.(streams := l.streams + if known then [] else [VideoRecord(GetOr(l.videoExtra, []))])
            && HasStream(s.streams, VIDEO_STREAM_ID)
            && (HasStream(s.streams, AUDIO_STREAM_ID) <==> HasStream(l.streams, AUDIO_STREAM_ID))
  {
    hide HasStream;
    StreamAdded(l.streams, VideoRecord(GetOr(l.videoExtra, [])), VIDEO_STREAM_ID);
    StreamAdded(l.streams, VideoRecord(GetOr(l.videoExtra, [])), AUDIO_STREAM_ID);
    assert l.streams + [] == l.streams;
  }

  lemma AudioSynced(l: Listened, codec: CodecKind)
    ensures var known, s := HasStream(l.streams, AUDIO_STREAM_ID), SyncAudio(l, codec);
            && s == l.(streams := l.streams + if known then [] else [AudioRecord(codec, GetOr(l.audioExtra, []))])
            && HasStream(s.streams, AUDIO_STREAM_ID)
            && (HasStream(s.streams, VIDEO_STREAM_ID) <==> HasStream(l.streams, VIDEO_STREAM_ID))
  {
    hide HasStream;
    StreamAdded(l.streams, AudioRecord(codec, GetOr(l.audioExtra, [])), VIDEO_STREAM_ID);
    StreamAdded(l.streams, AudioRecord(codec, GetOr(l.audioExtra, [])), AUDIO_STREAM_ID);
    assert l.streams + [] == l.streams;
  }

  /** How a push on a registered track can end, when its sequence header is due and when it is not. */
  predicate EndsAs(m: MuxState, after: MuxState, pushed: Pushed, head: Tag, data: Tag, due: bool)
  {
    if !due then pushed.mux == m && pushed.tags == if pushed.error.None? then [data] else []
    else if pushed.tags == [] then pushed.mux == m && pushed.error.Some?
    else pushed.mux == after && pushed.tags == [head] + if pushed.error.None? then [data] else []
  }

  lemma VideoEnds(m: MuxState, p: Packet)
    requires m.video.Some? && m.video.value.codec == H264 && p.streamId == VIDEO_STREAM_ID
    ensures var track := m.video.value;
            EndsAs(m, m.(video := Some(track.(headerWritten := true))), PushPacket(m, p),
                   HeadTag(track, p), DataTag(H264, p), !track.headerWritten)
  {
    hide HeadTag, DataTag;
  }

  lemma AudioEnds(m: MuxState, p: Packet)
    requires m.audio.Some? && m.audio.value.codec in {Aac, Mp3} && p.streamId == AUDIO_STREAM_ID
    ensures var track := m.audio.value;
            EndsAs(m, m.(audio := Some(track.(headerWritten := true))), PushPacket(m, p),
                   HeadTag(track, p), DataTag(track.codec, p), !track.headerWritten && track.codec == Aac)
  {
    hide HeadTag, DataTag;
  }

  lemma VideoPushHeard(m: MuxState, l: Listened, p: Packet)
    requires InStep(m, l) && p.streamId == VIDEO_STREAM_ID && m.video.Some?
    ensures Heard(m, l, Push(p))
  {
    hide HasStream, Handle, AsRead, HeadTag, DataTag, SyncVideo, VideoRecord, PushPacket;
    var track := m.video.value;
    var head, data := HeadTag(track, p), DataTag(H264, p);
    VideoEnds(m, p);
    VideoHeard(l, track, p);
    VideoHeard(Handle(l, head), track, p);
    HeardPair(l, head, data);
    HeardPair(l, data, data);
    VideoSynced(l);
    VideoSynced(l.(videoExtra := Some(track.extraData)));
    VideoSynced(Handle(l, head));
    assert l.streams + [] == l.streams && l.packets + [] == l.packets;
  }

  lemma AudioPushHeard(m: MuxState, l: Listened, p: Packet)
    requires InStep(m, l) && p.streamId == AUDIO_STREAM_ID && m.audio.Some?
    ensures Heard(m, l, Push(p))
  {
    hide HasStream, Handle, AsRead, HeadTag, DataTag, SyncAudio, AudioRecord, PushPacket;
    var track := m.audio.value;
    var head, data := HeadTag(track, p), DataTag(track.codec, p);
    AudioEnds(m, p);
    AudioHeard(l, track, p);
    AudioHeard(Handle(l, head), track, p);
    HeardPair(l, head, data);
    HeardPair(l, data, data);
    AudioSynced(l, Aac);
    AudioSynced(l.(audioExtra := Some(track.extraData)), Aac);
    AudioSynced(Handle(l, head), Aac);
    AudioSynced(l.(audioExtra := Some(GetOr(l.audioExtra, []))), Mp3);
    assert l.streams + [] == l.streams && l.packets + [] == l.packets;
  }

  lemma {:induction false} OpHeard(m: MuxState, l: Listened, op: Op)
    requires InStep(m, l) && (op.Raw? ==> op.tag.tagType.ScriptData?)
    ensures Heard(m, l, op)
  {
    hide HasStream, HandleVideo, HandleAudio, PushVideo, PushAudio;
    assert l.streams + [] == l.streams && l.packets + [] == l.packets;
    if op.Push? && op.packet.streamId == VIDEO_STREAM_ID && m.video.Some? {
      VideoPushHeard(m, l, op.packet);
    } else if op.Push? && op.packet.streamId == AUDIO_STREAM_ID && m.audio.Some? {
      AudioPushHeard(m, l, op.packet);
    } else if op.Push? {
      UnregisteredPush(m, op.packet);
    } else if op.Raw? {
      HeardPair(l, op.tag, op.tag);
    }
  }

  lemma UnregisteredPush(m: MuxState, p: Packet)
    requires p.streamId == VIDEO_STREAM_ID ==> m.video.None?
    requires p.streamId == AUDIO_STREAM_ID ==> m.audio.None?
    ensures PushPacket(m, p) == Pushed(m, [], Some(UnregisteredStream(p.streamId)))
  {
  }

  lemma {:induction false} HeardAppended(l: Listened, a: seq<Tag>, b: seq<Tag>)
    ensures HeardAll(l, a + b) == HeardAll(HeardAll(l, a), b)
    decreases |b|
  {
    hide Handle;
    if b == [] {
      assert a + b == a;
    } else {
      assert (a + b)[..|a + b| - 1] == a + b[..|b| - 1];
      HeardAppended(l, a, b[..|b| - 1]);
    }
  }

  /** Tags the caller frames itself carry script data only. */
  predicate ScriptOnly(ops: seq<Op>)
  {
    forall i | 0 <= i < |ops| :: ops[i].Raw? ==> ops[i].tag.tagType.ScriptData?
  }

  lemma {:induction false} OpsHeard(ops: seq<Op>)
    requires ScriptOnly(ops)
    ensures var l := HeardAll(SILENCE, Tags(ops));
            InStep(MuxAfter(ops), l) && l.streams == Records(ops) && l.packets == Accepted(ops)
    decreases |ops|
  {
    hide Apply, Handle, InStep, Record;
    if ops == [] {
      NothingHeard();
    } else {
      var before, op := ops[..|ops| - 1], ops[|ops| - 1];
      OpsHeard(before);
      var m, l := MuxAfter(before), HeardAll(SILENCE, Tags(before));
      OpHeard(m, l, op);
      HeardAppended(SILENCE, Tags(before), Apply(m, op).tags);
    }
  }

  lemma NothingHeard()
    ensures InStep(NEW_MUX.(headerWritten := true), SILENCE)
  {
  }

  // ---- The round trip ----

  lemma OpFits(m: MuxState, op: Op)
    ensures AllFit(Apply(m, op).tags)
  {
    hide HeadTag, DataTag;
  }

  lemma {:induction false} TagsFit(ops: seq<Op>)
    ensures AllFit(Tags(ops))
    decreases |ops|
  {
    hide Apply;
    if ops != [] {
      var before := ops[..|ops| - 1];
      TagsFit(before);
      OpFits(MuxAfter(before), ops[|ops| - 1]);
    }
  }

  /** The bytes of a file. */
  function File(hasAudio: bool, hasVideo: bool, ops: seq<Op>): seq<Byte>
  {
    FileHeader(hasAudio, hasVideo) + Encoded(Tags(ops))
  }

  /**
   Whatever is registered, pushed or refused, in whatever order, and however the file is cut: the demuxer returns each
   accepted packet in order, as FLV can tell it, keeps one record a stream, and has no bytes left.
   */
  lemma {:induction false} RoundTrip(hasAudio: bool, hasVideo: bool, ops: seq<Op>, chunks: seq<seq<Byte>>)
    requires ScriptOnly(ops) && Concat(chunks) == File(hasAudio, hasVideo, ops)
    ensures var s := PushAll(chunks);
            && s.heard.packets == Accepted(ops) && s.heard.streams == Records(ops)
            && s.reader == Reader([], true, hasAudio, hasVideo)
  {
    hide Run, FileHeader, Encoded, Tags, Accepted, Records, HeardAll, MuxAfter;
    FlvChunking(chunks);
    var header, rest := FileHeader(hasAudio, hasVideo), Encoded(Tags(ops));
    RunFeeds(Feed(NEW_DEMUX, header), rest);
    assert Feed(Feed(NEW_DEMUX, header), rest) == Feed(NEW_DEMUX, Concat(chunks));
    FileHeaderRead(hasAudio, hasVideo);
    TagsFit(ops);
    TagsRead(DemuxState(Reader([], true, hasAudio, hasVideo), SILENCE), Tags(ops));
    OpsHeard(ops);
  }

  /** What FLV can carry without loss. */
  predicate Representable(p: Packet)
  {
    && 0 <= p.dts < 0x1_0000_0000 && p.duration == 0 && !p.isDiscard
    && (p.streamId == VIDEO_STREAM_ID ==> -0x80_0000 <= p.pts - p.dts < 0x80_0000)
    && (p.streamId != VIDEO_STREAM_ID ==> p.streamId == AUDIO_STREAM_ID && p.pts == p.dts && p.isKeyframe)
  }

  /** A packet is returned as it was exactly when it is representable. */
  lemma ReadAsWritten(p: Packet)
    ensures AsRead(p) == p <==> Representable(p)
  {
    OffsetKept(p);
  }

  lemma OffsetKept(p: Packet)
    ensures SignExtend24(Low24(CompositionTime(p))) == p.pts - p.dts <==> -0x80_0000 <= p.pts - p.dts < 0x80_0000
  {
  }

  // ---- Registered once ----

  /** The sub-header before the payload takes five bytes on video and two on audio. */
  predicate Fits(p: Packet)
  {
    Representable(p) && |p.payload| <= MAX_DATA_SIZE - if p.streamId == VIDEO_STREAM_ID then 5 else 2
  }

  /** An H.264 track and an AAC track, then packets. */
  function Session(avcc: seq<Byte>, asc: seq<Byte>, packets: seq<Packet>): (ops: seq<Op>)
    ensures |ops| == 2 + |packets|
  {
    if packets == [] then [Register(VideoRecord(avcc)), Register(AudioRecord(Aac, asc))]
    else Session(avcc, asc, packets[..|packets| - 1]) + [Push(packets[|packets| - 1])]
  }

  predicate BothTracks(m: MuxState, avcc: seq<Byte>, asc: seq<Byte>)
  {
    && m.headerWritten
    && m.video.Some? && m.video.value.codec == H264 && m.video.value.extraData == avcc
    && m.audio.Some? && m.audio.value.codec == Aac && m.audio.value.extraData == asc
  }

  lemma PushSucceeds(m: MuxState, avcc: seq<Byte>, asc: seq<Byte>, p: Packet)
    requires BothTracks(m, avcc, asc) && Fits(p) && |avcc| <= MAX_DATA_SIZE - 5 && |asc| <= MAX_DATA_SIZE - 2
    ensures var pushed := PushPacket(m, p);
            pushed == Apply(m, Push(p)) && pushed.error.None? && pushed.tags != [] && BothTracks(pushed.mux, avcc, asc)
  {
  }

  predicate Carries(streams: seq<StreamInfo>, avcc: seq<Byte>, asc: seq<Byte>)
  {
    forall i | 0 <= i < |streams| :: streams[i] == VideoRecord(avcc) || streams[i] == AudioRecord(Aac, asc)
  }

  lemma OneMore(before: seq<Op>, op: Op)
    ensures var ops, m := before + [op], MuxAfter(before);
            && MuxAfter(ops) == Apply(m, op).mux
            && Accepted(ops) == Accepted(before)
                 + (if op.Push? && Apply(m, op).error.None? then [AsRead(op.packet)] else [])
            && Records(ops) == Records(before) + Record(m, Records(before), op)
  {
    assert (before + [op])[..|before|] == before;
  }

  lemma RecordKeeps(m: MuxState, avcc: seq<Byte>, asc: seq<Byte>, known: seq<StreamInfo>, p: Packet)
    requires BothTracks(m, avcc, asc) && Fits(p) && Apply(m, Push(p)).tags != []
    ensures var now := known + Record(m, known, Push(p));
            && (Carries(known, avcc, asc) ==> Carries(now, avcc, asc)) && HasStream(now, p.streamId)
            && forall id | HasStream(known, id) :: HasStream(now, id)
  {
    hide HasStream, Apply;
    FitsMeans(p);
    var record := Record(m, known, Push(p));
    if record != [] {
      assert record == [record[0]];
      StreamAdded(known, record[0], p.streamId);
      forall id | HasStream(known, id)
        ensures HasStream(known + record, id)
      {
        StreamAdded(known, record[0], id);
      }
    } else {
      assert known + record == known;
    }
  }

  lemma {:induction false} SessionRuns(avcc: seq<Byte>, asc: seq<Byte>, packets: seq<Packet>)
    requires |avcc| <= MAX_DATA_SIZE - 5 && |asc| <= MAX_DATA_SIZE - 2
             && forall i | 0 <= i < |packets| :: Fits(packets[i])
    ensures var ops := Session(avcc, asc, packets);
            && ScriptOnly(ops) && BothTracks(MuxAfter(ops), avcc, asc) && Accepted(ops) == packets
            && Carries(Records(ops), avcc, asc)
            && forall i | 0 <= i < |packets| :: HasStream(Records(ops), packets[i].streamId)
    decreases |packets|
  {
    hide Apply, AsRead, Fits, HasStream, MuxAfter, Accepted, Records, Record, BothTracks, Carries;
    if packets == [] {
      TwoRegistered(avcc, asc);
    } else {
      var front, p := packets[..|packets| - 1], packets[|packets| - 1];
      SessionRuns(avcc, asc, front);
      var before := Session(avcc, asc, front);
      var m := MuxAfter(before);
      OneMore(before, Push(p));
      PushSucceeds(m, avcc, asc, p);
      ReadAsWritten(p);
      FitsMeans(p);
      RecordKeeps(m, avcc, asc, Records(before), p);
    }
  }

  lemma FitsMeans(p: Packet)
    requires Fits(p)
    ensures Representable(p)
  {
  }

  lemma TwoRegistered(avcc: seq<Byte>, asc: seq<Byte>)
    ensures var ops := Session(avcc, asc, []);
            && ScriptOnly(ops) && BothTracks(MuxAfter(ops), avcc, asc) && Accepted(ops) == []
            && Carries(Records(ops), avcc, asc)
  {
    var video, audio := Register(VideoRecord(avcc)), Register(AudioRecord(Aac, asc));
    OneMore([], video);
    OneMore([video], audio);
    assert [] + [video] == [video] && [video] + [audio] == [video, audio];
  }

  /**
   H.264 and AAC packets in any interleaving, all representable, come back exactly, and every stream the demuxer lists
   carries the data it was registered with.
   */
  lemma {:induction false} PacketsReturn(
    hasAudio: bool, hasVideo: bool, avcc: seq<Byte>, asc: seq<Byte>, packets: seq<Packet>, chunks: seq<seq<Byte>>)
    requires |avcc| <= MAX_DATA_SIZE - 5 && |asc| <= MAX_DATA_SIZE - 2
             && forall i | 0 <= i < |packets| :: Fits(packets[i])
    requires Concat(chunks) == File(hasAudio, hasVideo, Session(avcc, asc, packets))
    ensures var heard := PushAll(chunks).heard;
            && heard.packets == packets && Carries(heard.streams, avcc, asc)
            && forall i | 0 <= i < |packets| :: HasStream(heard.streams, packets[i].streamId)
  {
    hide PushAll, File, Session, Fits, Carries, HasStream;
    SessionRuns(avcc, asc, packets);
    RoundTrip(hasAudio, hasVideo, Session(avcc, asc, packets), chunks);
  }

  // ---- One sequence header ----

  predicate IsHead(kind: TagType, t: Tag)
  {
    t.tagType == kind &&
    match kind
    case Video => |t.data| >= 5 && t.data[0] % 16 == 7 && t.data[1] == 0
    case Audio => |t.data| >= 2 && t.data[0] / 16 == 10 && t.data[1] == 0
    case ScriptData => false
  }

  /** A frame of the kind that needs a sequence header: AVC or AAC. */
  predicate IsData(kind: TagType, t: Tag)
  {
    t.tagType == kind &&
    match kind
    case Video => |t.data| >= 5 && t.data[0] % 16 == 7 && t.data[1] == 1
    case Audio => |t.data| >= 2 && t.data[0] / 16 == 10 && t.data[1] == 1
    case ScriptData => false
  }

  function HeadData(kind: TagType, t: Tag): seq<Byte>
    requires IsHead(kind, t)
  {
    if kind == Video then t.data[5..] else t.data[2..]
  }

  /** What the sequence headers of one kind carry, in order. */
  function Heads(kind: TagType, tags: seq<Tag>): seq<seq<Byte>>
  {
    if tags == [] then []
    else
      var last := tags[|tags| - 1];
      Heads(kind, tags[..|tags| - 1]) + if IsHead(kind, last) then [HeadData(kind, last)] else []
  }

  /** The data of the tracks registered in one slot, in order. */
  function Registered(kind: TagType, ops: seq<Op>): seq<seq<Byte>>
  {
    if ops == [] then []
    else
      var op := ops[|ops| - 1];
      Registered(kind, ops[..|ops| - 1])
      + if op.Register? && AddTrack(NEW_MUX, op.stream).1.None? && op.stream.VideoStream? == (kind == Video)
        then [op.stream.extraData] else []
  }

  function Slot(kind: TagType, m: MuxState): Option<MuxTrack>
  {
    if kind == Video then m.video else m.audio
  }

  /** Every frame comes after a sequence header that is the only one before it. */
  predicate HeadsFirst(kind: TagType, tags: seq<Tag>, registered: seq<seq<Byte>>)
  {
    forall k | 0 <= k < |tags| :: IsData(kind, tags[k]) ==> Heads(kind, tags[..k]) == registered && |registered| == 1
  }

  /** With at most one registration, headers and frames so far are those of the track as it now stands. */
  predicate Headed(kind: TagType, m: MuxState, tags: seq<Tag>, registered: seq<seq<Byte>>)
  {
    && (kind == Video && m.video.Some? ==> m.video.value.codec == H264)
    && HeadsFirst(kind, tags, registered)
    && match Slot(kind, m)
       case None => registered == [] && Heads(kind, tags) == []
       case Some(track) =>
         registered == [track.extraData] && Heads(kind, tags) == (if track.headerWritten then registered else [])
  }

  lemma TagAdded(kind: TagType, tags: seq<Tag>, t: Tag, registered: seq<seq<Byte>>)
    requires HeadsFirst(kind, tags, registered)
    requires IsData(kind, t) ==> Heads(kind, tags) == registered && |registered| == 1
    ensures HeadsFirst(kind, tags + [t], registered)
    ensures Heads(kind, tags + [t]) == Heads(kind, tags) + if IsHead(kind, t) then [HeadData(kind, t)] else []
  {
    hide IsData, IsHead, HeadData;
    var all := tags + [t];
    assert all[..|tags|] == tags;
    forall k | 0 <= k < |all| && IsData(kind, all[k])
      ensures Heads(kind, all[..k]) == registered && |registered| == 1
    {
      if k < |tags| {
        assert all[..k] == tags[..k];
      }
    }
  }

  lemma KindsOfTags(kind: TagType, track: MuxTrack, p: Packet)
    requires kind != ScriptData && track.codec in {H264, Aac, Mp3}
    ensures var head, data := HeadTag(track, p), DataTag(track.codec, p);
            && (IsHead(kind, head) <==> (kind == Video) == (track.codec == H264))
            && (IsHead(kind, head) ==> HeadData(kind, head) == track.extraData)
            && !IsData(kind, head) && !IsHead(kind, data)
            && (IsData(kind, data) <==> (kind == Video && track.codec == H264) || (kind == Audio && track.codec == Aac))
  {
    hide BigEndian;
    assert AvcSeqHeaderData(track.extraData)[5..] == track.extraData;
    assert AacSeqHeaderData(track.extraData)[2..] == track.extraData;
  }

  /** Tags of the other kind change nothing. */
  lemma {:induction false} OtherTags(kind: TagType, tags: seq<Tag>, more: seq<Tag>, registered: seq<seq<Byte>>)
    requires HeadsFirst(kind, tags, registered) && forall i | 0 <= i < |more| :: more[i].tagType != kind
    ensures HeadsFirst(kind, tags + more, registered) && Heads(kind, tags + more) == Heads(kind, tags)
    decreases |more|
  {
    hide HeadsFirst, Heads;
    if more == [] {
      assert tags + more == tags;
    } else {
      var n := |more| - 1;
      OtherTags(kind, tags, more[..n], registered);
      TagAdded(kind, tags + more[..n], more[n], registered);
      assert tags + more == tags + more[..n] + [more[n]];
      assert Heads(kind, tags) + [] == Heads(kind, tags);
    }
  }

  /** What one push on a track writes: nothing, the frame, the header, or both. */
  lemma PushForms(m: MuxState, p: Packet)
    ensures var t, kind := PushPacket(m, p).tags, if p.streamId == VIDEO_STREAM_ID then Video else Audio;
            var after := PushPacket(m, p).mux;
            && (forall i | 0 <= i < |t| :: t[i].tagType == kind)
            && (kind == Video ==> after.audio == m.audio) && (kind == Audio ==> after.video == m.video)
            && match Slot(kind, m)
               case None => t == [] && after == m
               case Some(track) =>
                 (kind == Video ==> track.codec == H264) ==>
                 var head, data := HeadTag(track, p), DataTag(track.codec, p);
                 if track.headerWritten || track.codec == Mp3 || t == [] then after == m && (t == [] || t == [data])
                 else Slot(kind, after) == Some(track.(headerWritten := true)) && (t == [head] || t == [head] + [data])
  {
  }

  lemma HeadedPush(kind: TagType, m: MuxState, p: Packet, tags: seq<Tag>, registered: seq<seq<Byte>>)
    requires kind != ScriptData && Headed(kind, m, tags, registered)
    requires m.audio.Some? ==> m.audio.value.codec in {Aac, Mp3}
    ensures Headed(kind, PushPacket(m, p).mux, tags + PushPacket(m, p).tags, registered)
  {
    hide PushPacket, HeadsFirst, Heads, IsHead, IsData, HeadTag, DataTag;
    var more := PushPacket(m, p).tags;
    PushForms(m, p);
    if kind != if p.streamId == VIDEO_STREAM_ID then Video else Audio {
      OtherTags(kind, tags, more, registered);
    } else if more == [] {
      assert tags + more == tags;
    } else {
      var track := Slot(kind, m).value;
      var head, data := HeadTag(track, p), DataTag(track.codec, p);
      KindsOfTags(kind, track, p);
      if track.headerWritten || track.codec == Mp3 {
        TagAdded(kind, tags, data, registered);
      } else {
        TagAdded(kind, tags, head, registered);
        TagAdded(kind, tags + [head], data, registered);
        assert tags + ([head] + [data]) == tags + [head] + [data];
      }
      assert Heads(kind, tags) + [] == Heads(kind, tags);
      assert [] + [HeadData(kind, head)] == [HeadData(kind, head)];
    }
  }

  lemma HeadedRegistration(
    kind: TagType, m: MuxState, s: StreamInfo, tags: seq<Tag>, before: seq<seq<Byte>>, after: seq<seq<Byte>>)
    requires kind != ScriptData && Headed(kind, m, tags, before) && |after| <= 1
    requires after == before
             + if AddTrack(NEW_MUX, s).1.None? && s.VideoStream? == (kind == Video) then [s.extraData] else []
    ensures Headed(kind, AddTrack(m, s).0, tags, after)
  {
    hide Heads, IsData;
  }

  lemma {:induction false} OpsHeaded(kind: TagType, ops: seq<Op>)
    requires kind != ScriptData && ScriptOnly(ops) && |Registered(kind, ops)| <= 1
    ensures Headed(kind, MuxAfter(ops), Tags(ops), Registered(kind, ops))
    decreases |ops|
  {
    hide AddTrack, PushPacket, Headed, HeadsFirst, Heads;
    if ops == [] {
      NothingHeaded(kind);
    } else {
      var before, op := ops[..|ops| - 1], ops[|ops| - 1];
      OpsHeaded(kind, before);
      var m, tags, registered := MuxAfter(before), Tags(before), Registered(kind, before);
      assert tags + [] == tags && registered + [] == registered;
      if op.Register? {
        HeadedRegistration(kind, m, op.stream, tags, registered, Registered(kind, ops));
      } else if op.Push? {
        AudioCodecs(before);
        HeadedPush(kind, m, op.packet, tags, registered);
      } else {
        HeadedScript(kind, m, op.tag, tags, registered);
      }
    }
  }

  lemma NothingHeaded(kind: TagType)
    ensures Headed(kind, NEW_MUX.(headerWritten := true), [], [])
  {
  }

  lemma HeadedScript(kind: TagType, m: MuxState, tag: Tag, tags: seq<Tag>, registered: seq<seq<Byte>>)
    requires kind != ScriptData && tag.tagType == ScriptData && Headed(kind, m, tags, registered)
    ensures Headed(kind, m, tags + WriteOne(m, tag).tags, registered)
  {
    hide HeadsFirst, Heads;
    OtherTags(kind, tags, WriteOne(m, tag).tags, registered);
  }

  lemma {:induction false} AudioCodecs(ops: seq<Op>)
    ensures MuxAfter(ops).audio.Some? ==> MuxAfter(ops).audio.value.codec in {Aac, Mp3}
    decreases |ops|
  {
    if ops != [] {
      AudioCodecs(ops[..|ops| - 1]);
    }
  }

  /**
   A track registered at most once has at most one sequence header in the file, and it stands before every AVC or AAC
   frame of the track, with the data registered.
   */
  lemma {:induction false} OneSequenceHeader(kind: TagType, ops: seq<Op>)
    requires kind != ScriptData && ScriptOnly(ops) && |Registered(kind, ops)| <= 1
    ensures var tags := Tags(ops);
            && |Heads(kind, tags)| <= 1
            && forall k | 0 <= k < |tags| :: IsData(kind, tags[k]) ==>
                 Heads(kind, tags) == Heads(kind, tags[..k]) == Registered(kind, ops) && |Registered(kind, ops)| == 1
  {
    hide Heads, Tags, IsData;
    OpsHeaded(kind, ops);
    var tags := Tags(ops);
    forall k | 0 <= k < |tags| && IsData(kind, tags[k])
      ensures Heads(kind, tags) == Heads(kind, tags[..k])
    {
      HeadsGrow(kind, tags, k);
    }
  }

  lemma {:induction false} HeadsGrow(kind: TagType, tags: seq<Tag>, k: nat)
    requires k <= |tags|
    ensures |Heads(kind, tags[..k])| <= |Heads(kind, tags)|
    decreases |tags|
  {
    hide IsHead, HeadData;
    if k < |tags| {
      HeadsGrow(kind, tags[..|tags| - 1], k);
      assert tags[..|tags| - 1][..k] == tags[..k];
    } else {
      assert tags[..k] == tags;
    }
  }

  // ---- A whole session in place ----

  method MuxSession(hasAudio: bool, hasVideo: bool, ops: seq<Op>) returns (file: seq<Byte>)
    ensures file == File(hasAudio, hasVideo, ops)
  {
    hide FileHeader, Encoded, Apply, PushPacket, WriteOne, AddTrack;
    var mux := new FlvMuxer();
    file := mux.WriteHeader(hasAudio, hasVideo, []);
    NothingEncoded();
    assert [] + FileHeader(hasAudio, hasVideo) + [] == FileHeader(hasAudio, hasVideo) + [];
    for i := 0 to |ops|
      invariant fresh(mux) && fresh(mux.inner)
      invariant mux.View() == MuxAfter(ops[..i]) && file == File(hasAudio, hasVideo, ops[..i])
    {
      assert ops[..i + 1][..i] == ops[..i];
      ghost var tags := Apply(mux.View(), ops[i]).tags;
      file := ApplyOne(mux, ops[i], file);
      EncodedAppended(Tags(ops[..i]), tags);
    }
    assert ops[..|ops|] == ops;
  }

  method ApplyOne(mux: FlvMuxer, op: Op, out: seq<Byte>) returns (r: seq<Byte>)
    modifies mux
    ensures mux.View() == Apply(old(mux.View()), op).mux
    ensures r == out + Encoded(Apply(old(mux.View()), op).tags)
  {
    hide Encoded, PushPacket, AddTrack;
    NothingEncoded();
    r := out + [];
    var error;
    match op {
      case Register(stream) =>
        error := mux.RegisterTrack(stream);
      case Push(packet) =>
        r, error := mux.PushOnePacket(packet, out);
      case Raw(tag) =>
        r, error := mux.WriteRawTag(tag, out);
    }
  }

  lemma {:induction false} EncodedAppended(a: seq<Tag>, b: seq<Tag>)
    ensures Encoded(a + b) == Encoded(a) + Encoded(b)
    decreases |b|
  {
    hide TagBytes;
    if b == [] {
      assert a + b == a;
    } else {
      assert (a + b)[..|a + b| - 1] == a + b[..|b| - 1];
      EncodedAppended(a, b[..|b| - 1]);
    }
  }
}
