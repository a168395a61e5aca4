/** FLV byte by byte: where the fields of a header and a tag stand, what a push writes, how tags are heard. */
module FlvWire {
  import opened Bytes
  import opened ReplayTime
  import opened FlvTags
  import opened FlvSpec

  // ---- Tags ----

  function Number(s: seq<Byte>): (n: nat)
  {
    if s == [] then 0 else Number(s[..|s| - 1]) * 256 + s[|s| - 1]
  }

  lemma {:induction false} NumberIs(s: seq<Byte>)
    ensures Number(s) == FromBigEndian(s)
  {
    if s != [] {
      NumberIs(s[..|s| - 1]);
    }
  }

  /**
   A tag is its type's number, its data's length, the low three bytes of its time and then the high one, three zero
   bytes, the data, and last the length of all that came before.
   */
  lemma {:induction false} TagLaidOut(tag: Tag)
    requires |tag.data| <= 0xFF_FFFF
    ensures var s, n := TagBytes(tag), |tag.data|;
            && |s| == n + 15
            && s[0] == (match tag.tagType case Audio => 8 case Video => 9 case ScriptData => 18)
            && Number(s[1..4]) == n
            && Number(s[4..7]) == tag.timestamp % 0x100_0000 && s[7] == tag.timestamp / 0x100_0000
            && s[8..11] == [0, 0, 0]
            && s[11..n + 11] == tag.data
            && Number(s[n + 11..]) == n + 11
  {
    hide BigEndian, FromBigEndian, Number;
    var s, n := TagBytes(tag), |tag.data|;
    var size, low, last := BigEndian(n, 3), BigEndian(tag.timestamp, 3), BigEndian(n + 11, 4);
    assert s[1..4] == size && s[4..7] == low && s[n + 11..] == last;
    NumberIs(size);
    NumberIs(low);
    NumberIs(last);
    Widths();
    BigEndianRoundTrip(n, 3);
    BigEndianWraps(tag.timestamp, 3);
    BigEndianRoundTrip(n + 11, 4);
  }

  lemma Widths()
    ensures Pow256(3) == 0x100_0000 && Pow256(4) == 0x1_0000_0000
  {
  }

  /** Tags are refused before the file header and when their data is longer than three bytes can tell. */
  lemma {:induction false} RefusedTags(headerWritten: bool, tag: Tag)
    ensures !headerWritten ==> Refusal(headerWritten, tag) == Some(HeaderNotWritten)
    ensures headerWritten && |tag.data| > 0xFF_FFFF ==>
              Refusal(headerWritten, tag) == Some(TagDataTooLarge(|tag.data|))
    ensures headerWritten && |tag.data| <= 0xFF_FFFF ==> Refusal(headerWritten, tag) == None
  {
  }

  // ---- File headers ----

  /** A file begins with "FLV", version 1, the streams' flags, the header's length of nine, and four zero bytes. */
  lemma {:induction false} HeaderLaidOut(hasAudio: bool, hasVideo: bool)
    ensures var s := FileHeader(hasAudio, hasVideo);
            && |s| == 13 && s[..4] == [0x46, 0x4C, 0x56, 1]
            && (s[4] / 4 % 2 == 1 <==> hasAudio) && (s[4] % 2 == 1 <==> hasVideo) && s[4] < 8 && s[4] / 2 % 2 == 0
            && Number(s[5..9]) == 9 && s[9..13] == [0, 0, 0, 0]
  {
    hide BigEndian, FromBigEndian, Number;
    var s := FileHeader(hasAudio, hasVideo);
    assert s[5..9] == BigEndian(9, 4) && s[9..13] == BigEndian(0, 4);
    NumberIs(s[5..9]);
    Widths();
    BigEndianRoundTrip(9, 4);
    FourZeros();
  }

  lemma FourZeros()
    ensures BigEndian(0, 4) == [0, 0, 0, 0]
  {
    assert BigEndian(0, 2) == BigEndian(0, 1) + [0] && BigEndian(0, 1) == [] + [0];
  }

  /** A header may be of any length: as many bytes as it says and four more are passed over, once they are all there. */
  lemma {:induction false} AnyHeaderRead(r: Reader)
    requires |r.buf| >= 9
    ensures var skipped := Number(r.buf[5..9]) + 4;
            ParseHeader(r) ==
            if r.buf[0] != 0x46 || r.buf[1] != 0x4C || r.buf[2] != 0x56 then (r, Err(BadSignature))
            else if |r.buf| < skipped then (r, Ok(false))
            else (Reader(r.buf[skipped..], true, r.buf[4] / 4 % 2 == 1, r.buf[4] % 2 == 1), Ok(true))
  {
    hide FromBigEndian, Number;
    NumberIs(r.buf[5..9]);
    assert r.buf[..3] == [r.buf[0], r.buf[1], r.buf[2]];
  }

  /** Tag reading waits for eleven bytes, refuses any type but the three, and waits for the tag's whole length. */
  lemma {:induction false} AnyTagRead(r: Reader)
    ensures |r.buf| < 11 ==> ParseTag(r) == (r, Ok(None))
    ensures |r.buf| >= 11 && r.buf[0] !in {8, 9, 18} ==> ParseTag(r) == (r, Err(UnknownTagType(r.buf[0])))
    ensures |r.buf| >= 11 && r.buf[0] in {8, 9, 18} ==>
              var n := Number(r.buf[1..4]);
              if |r.buf| < n + 15 then ParseTag(r) == (r, Ok(None))
              else
                && ParseTag(r).0 == r.(buf := r.buf[n + 15..]) && ParseTag(r).1.Ok? && ParseTag(r).1.value.Some?
                && var tag := ParseTag(r).1.value.value;
                   && tag.tagType == (if r.buf[0] == 8 then Audio else if r.buf[0] == 9 then Video else ScriptData)
                   && tag.timestamp == Number([r.buf[7]] + r.buf[4..7])
                   && tag.data == r.buf[11..n + 11]
  {
    hide FromBigEndian, Number;
    if |r.buf| >= 11 {
      NumberIs(r.buf[1..4]);
      NumberIs([r.buf[7]] + r.buf[4..7]);
    }
  }

  // ---- What a push writes ----

  /** The millisecond a tag is given: the decode time, or zero when 32 bits cannot tell it. */
  function Millisecond(dts: int): int
  {
    if 0 <= dts <= 0xFFFF_FFFF then dts else 0
  }

  /** The three bytes of a video tag's offset: presentation less decode time, brought inside 32 bits, its low 24. */
  predicate TellsOffset(s: seq<Byte>, far: int)
    requires |s| == 3
  {
    var near := if far < -0x8000_0000 then -0x8000_0000 else if far > 0x7FFF_FFFF then 0x7FFF_FFFF else far;
    Number(s) == near % 0x100_0000
  }

  predicate IsNalu(tag: Tag, p: Packet)
  {
    && tag.tagType == Video && tag.timestamp == Millisecond(p.dts) && |tag.data| >= 5
    && tag.data[0] == (if p.isKeyframe then 0x17 else 0x27) && tag.data[1] == 1
    && TellsOffset(tag.data[2..5], p.pts - p.dts) && tag.data[5..] == p.payload
  }

  lemma NaluTag(p: Packet)
    ensures IsNalu(DataTag(H264, p), p)
  {
    hide BigEndian, FromBigEndian, Number;
    var d, v := DataTag(H264, p).data, Low24(CompositionTime(p));
    assert d[2..5] == BigEndian(v, 3) && d[5..] == p.payload;
    NumberIs(d[2..5]);
    Widths();
    BigEndianRoundTrip(v, 3);
  }

  /** A video push that succeeds writes its frame and, the first time, the registered data before it. */
  lemma {:induction false} VideoPushWrites(m: MuxState, p: Packet)
    requires p.streamId == 0
    ensures m.video.None? ==> PushPacket(m, p) == Pushed(m, [], Some(UnregisteredStream(0)))
    ensures var w := PushPacket(m, p);
            w.error.None? ==>
              && m.video.Some? && w.tags != [] && IsNalu(w.tags[|w.tags| - 1], p)
              && |w.tags| == (if m.video.value.headerWritten then 1 else 2)
              && w.mux == m.(video := Some(m.video.value.(headerWritten := true)))
              && (!m.video.value.headerWritten ==>
                    w.tags[0] == Tag(Video, Millisecond(p.dts), [0x17, 0, 0, 0, 0] + m.video.value.extraData))
  {
    hide AvcNaluData, IsNalu;
    NaluTag(p);
  }

  /** An audio push: AAC announces its configuration before the first frame, MP3 nothing. */
  lemma {:induction false} AudioPushWrites(m: MuxState, p: Packet)
    requires p.streamId == 1
    ensures m.audio.None? ==> PushPacket(m, p) == Pushed(m, [], Some(UnregisteredStream(1)))
    ensures var w, at := PushPacket(m, p), Millisecond(p.dts);
            w.error.None? ==>
              && m.audio.Some?
              && (m.audio.value.codec == Mp3 ==> w.mux == m && w.tags == [Tag(Audio, at, [0x2F] + p.payload)])
              && (m.audio.value.codec != Mp3 ==>
                    && m.audio.value.codec == Aac
                    && w.mux == m.(audio := Some(m.audio.value.(headerWritten := true)))
                    && w.tags == (if m.audio.value.headerWritten then []
                                  else [Tag(Audio, at, [0xAF, 0] + m.audio.value.extraData)])
                                 + [Tag(Audio, at, [0xAF, 1] + p.payload)])
  {
  }

  /** Only streams 0 and 1 take packets, and only these three codecs register, each in the slot of its kind. */
  lemma {:induction false} WhatIsTaken(m: MuxState, p: Packet, s: StreamInfo)
    ensures p.streamId > 1 ==> PushPacket(m, p) == Pushed(m, [], Some(UnregisteredStream(p.streamId)))
    ensures s.VideoStream? && s.codec == H264 ==>
              AddTrack(m, s) == (m.(video := Some(MuxTrack(H264, s.extraData, false))), None)
    ensures s.AudioStream? && (s.codec == Aac || s.codec == Mp3) ==>
              AddTrack(m, s) == (m.(audio := Some(MuxTrack(s.codec, s.extraData, false))), None)
    ensures (s.VideoStream? && s.codec != H264) || (s.AudioStream? && s.codec != Aac && s.codec != Mp3) ==>
              AddTrack(m, s) == (m, Some(UnsupportedCodec(s.codec)))
  {
  }

  // ---- How tags are heard ----

  /** A stream's record is added where the stream is first met, and never again. */
  predicate Joined(before: Listened, after: Listened, record: StreamInfo)
  {
    if exists i | 0 <= i < |before.streams| :: before.streams[i].id == record.id then after.streams == before.streams
    else after.streams == before.streams + [record]
  }

  /** A video tag says something only when it is AVC with five bytes or more: stream data, or a frame. */
  lemma {:induction false} VideoTagHeard(l: Listened, tag: Tag)
    requires tag.tagType == Video
    ensures var d, h := tag.data, Handle(l, tag);
            if |d| < 5 || d[0] % 16 != 7 || d[1] > 1 then h == l
            else if d[1] == 0 then
              && h.packets == l.packets && h.videoExtra == Some(d[5..]) && h.audioExtra == l.audioExtra
              && Joined(l, h, VideoStream(0, H264, Rational(1, 1000), 0, 0, d[5..]))
            else
              && h.videoExtra == l.videoExtra && h.audioExtra == l.audioExtra
              && Joined(l, h, VideoStream(0, H264, Rational(1, 1000), 0, 0, GetOr(l.videoExtra, [])))
              && |h.packets| == |l.packets| + 1 && h.packets[..|l.packets|] == l.packets
              && var p, raw := h.packets[|l.packets|], Number(d[2..5]);
                 && p == Packet(0, p.pts, tag.timestamp, 0, d[0] / 16 == 1, false, d[5..])
                 && p.pts - tag.timestamp == if raw < 0x80_0000 then raw else raw - 0x100_0000
  {
    hide FromBigEndian, Number;
    if |tag.data| >= 5 {
      NumberIs(tag.data[2..5]);
      FromBigEndianBound(tag.data[2..5]);
      Widths();
    }
  }

  /** An audio tag says something only when it is MP3, or AAC with two bytes or more. */
  lemma {:induction false} AudioTagHeard(l: Listened, tag: Tag)
    requires tag.tagType == Audio
    ensures var d, h := tag.data, Handle(l, tag);
            if d == [] || (d[0] / 16 != 2 && (d[0] / 16 != 10 || |d| < 2 || d[1] > 1)) then h == l
            else
              && Joined(l, h, AudioStream(1, if d[0] / 16 == 2 then Mp3 else Aac, Rational(1, 1000), 0, 0,
                                          GetOr(h.audioExtra, [])))
              && h.videoExtra == l.videoExtra
              && h.audioExtra == (if d[0] / 16 == 2 then Some(GetOr(l.audioExtra, []))
                                  else if d[1] == 0 then Some(d[2..]) else l.audioExtra)
              && h.packets == l.packets +
                   if d[0] / 16 == 10 && d[1] == 0 then []
                   else [Packet(1, tag.timestamp, tag.timestamp, 0, true, false,
                                if d[0] / 16 == 2 then d[1..] else d[2..])]
  {
    assert l.packets + [] == l.packets;
  }

  lemma ScriptsAreSilent(l: Listened, tag: Tag)
    requires tag.tagType == ScriptData
    ensures Handle(l, tag) == l
  {
  }
}
