/** Reading back what the writer wrote. */
module WebmRoundTrip {
  import opened Bytes
  import opened Vint
  import opened Lacing
  import opened Ids
  import opened DemuxSpec
  import opened Chunking
  import opened UnknownSize
  import opened MuxSpec
  import opened Mux

  // ---- One element at a time ----

  /** A reader at `pos` with `rest` to come, nothing amiss so far. */
  function At(pos: nat, rest: seq<Byte>, stack: seq<OpenElement>, core: Core): State
  {
    State(0, pos, rest, stack, core, false, true)
  }

  function HeaderLength(id: nat, body: seq<Byte>): nat
  {
    |IdBytes(id)| + |SizeBytes(|body|)|
  }

  lemma ElemHeader(id: nat, body: seq<Byte>, tail: seq<Byte>)
    requires SelfDelimiting(id) && |body| <= MAX_SIZE
    ensures var s, h := Elem(id, body) + tail, HeaderLength(id, body);
            && |Elem(id, body)| == h + |body|
            && ReadHeader(s) == Complete(id, Some(|body|), h)
            && s[h..] == body + tail
            && s[h + |body|..] == tail && s[h..h + |body|] == body
  {
    hide IdBytes, SizeBytes, IdAt, SizeAt;
    var s, n := Elem(id, body) + tail, |IdBytes(id)|;
    assert s == IdBytes(id) + (SizeBytes(|body|) + (body + tail));
    IdRoundTrip(id, SizeBytes(|body|) + (body + tail));
    assert s[n..] == SizeBytes(|body|) + (body + tail);
    SizeRoundTrip(|body|, body + tail);
  }

  lemma ReadLeaf(pos: nat, stack: seq<OpenElement>, core: Core, id: nat, body: seq<Byte>, tail: seq<Byte>)
    requires SelfDelimiting(id) && |body| <= MAX_SIZE && !IsDescendMaster(id) && !TopFinished(stack, pos)
    ensures Run(At(pos, Elem(id, body) + tail, stack, core))
            == Run(At(pos + |Elem(id, body)|, tail, stack, HandleLeaf(core, TopId(stack), id, body)))
  {
    hide ReadHeader, HandleLeaf, Elem, OnOpen, OnClose, HeaderLength, SelfDelimiting;
    ElemHeader(id, body, tail);
    var s := At(pos, Elem(id, body) + tail, stack, core);
    assert CloseBeforeSibling(s, id) == s;
    assert Step(s) == (Leaf(s, id, |body|, HeaderLength(id, body)), true);
  }

  lemma OpenMaster(pos: nat, stack: seq<OpenElement>, core: Core, id: nat, body: seq<Byte>, tail: seq<Byte>)
    requires SelfDelimiting(id) && |body| <= MAX_SIZE && IsDescendMaster(id)
    requires !TopFinished(stack, pos) && !(TopUnknownCluster(stack) && IsSegmentLevelChild(id))
    requires stack == [] || Top(stack).end.None? || pos + |Elem(id, body)| <= Top(stack).end.value
    ensures Run(At(pos, Elem(id, body) + tail, stack, core))
            == Run(At(pos + HeaderLength(id, body), body + tail,
                      stack + [OpenElement(id, Some(pos + |Elem(id, body)|))], OnOpen(core, id)))
  {
    hide ReadHeader, Leaf, OnClose, Elem, OnOpen, HeaderLength, SelfDelimiting;
    ElemHeader(id, body, tail);
    var s := At(pos, Elem(id, body) + tail, stack, core);
    assert CloseBeforeSibling(s, id) == s;
    assert Step(s) == (Open(s, id, Some(|body|), HeaderLength(id, body)), true);
  }

  lemma CloseMaster(pos: nat, stack: seq<OpenElement>, core: Core, id: nat, tail: seq<Byte>)
    ensures Run(At(pos, tail, stack + [OpenElement(id, Some(pos))], core))
            == Run(At(pos, tail, stack, OnClose(core, id)))
  {
    hide OnClose;
    var s := At(pos, tail, stack + [OpenElement(id, Some(pos))], core);
    assert Pop(s) == At(pos, tail, stack, OnClose(core, id)) by {
      assert s.stack[..|stack|] == stack;
    }
    FinishKept(s);
    FinishKept(Pop(s));
    assert CloseFinished(s) == CloseFinished(Pop(s));
  }

  /** The end of an enclosing element that still has `n` bytes or more to go. */
  predicate Room(stack: seq<OpenElement>, pos: nat, n: nat)
  {
    stack == [] || Top(stack).end.None? || pos + n <= Top(stack).end.value
  }

  // ---- Blocks ----

  function FramesOf(b: Block, base: I64): seq<Frame>
  {
    BlockFrames(ParsedBlock(TrackRead(b.track), ClampI64(base + b.relative), 0, b.payloads), b.isKeyframe, None)
  }

  lemma SingleSubFrame(head: seq<Byte>, payload: seq<Byte>)
    ensures SubFrames(head + payload, |head|, Unlaced) == Some([payload])
  {
    var body := head + payload;
    assert body[|head|..|body|] == payload;
    assert Slices(body, [Range(|head|, |body|)]) == [payload];
  }

  lemma LacedSubFrames(head: seq<Byte>, payloads: seq<seq<Byte>>)
    requires 2 <= |payloads| <= 256 && forall i | 0 <= i < |payloads| :: |payloads[i]| < DELTA_LIMIT
    ensures SubFrames(head + LacedBody(payloads), |head|, Ebml) == Some(payloads)
  {
    hide LacedBody, SplitRanges;
    LacingInverts(head, payloads);
  }

  lemma FlagsRead(b: Block)
    requires Writable(b)
    ensures FromFlags(BlockFlags(b)) == if |b.payloads| == 1 then Unlaced else Ebml
    ensures BlockFlags(b) >= 0x80 <==> b.isKeyframe
  {
  }

  /** The track number a block is read back with: a VINT tells none above `MAX_SIZE`. */
  function TrackRead(track: nat): nat
  {
    if track <= MAX_SIZE then track else MAX_SIZE
  }

  lemma TrackReads(track: nat, tail: seq<Byte>)
    ensures SizeAt(SizeBytes(track) + tail) == Ok((VintSize(TrackRead(track), false), |SizeBytes(track)|))
  {
    hide SizeAt, SizeBytes;
    if track <= MAX_SIZE {
      SizeRoundTrip(track, tail);
    } else {
      SizeSaturates(track, tail);
    }
  }

  /** Sizes within reach of the lace fields. */
  predicate Readable(b: Block)
  {
    Writable(b) && forall i | 0 <= i < |b.payloads| :: |b.payloads[i]| < DELTA_LIMIT
  }

  /** A block's body parses to the block. */
  lemma {:induction false} BlockParses(b: Block, base: I64)
    requires Readable(b)
    ensures ParseBlock(BlockBody(b), base)
            == Some(ParsedBlock(TrackRead(b.track), ClampI64(base + b.relative), BlockFlags(b), b.payloads))
  {
    hide SizeBytes, SizeAt, SubFrames, LacedBody, FromFlags, BlockFlags;
    var body, head := BlockBody(b), BlockHead(b);
    var n := |SizeBytes(b.track)|;
    var rest := if |b.payloads| == 1 then b.payloads[0] else LacedBody(b.payloads);
    assert body == SizeBytes(b.track) + (SignedPairBytes(b.relative) + [BlockFlags(b)] + rest);
    TrackReads(b.track, SignedPairBytes(b.relative) + [BlockFlags(b)] + rest);
    assert body[n] == SignedPairBytes(b.relative)[0] && body[n + 1] == SignedPairBytes(b.relative)[1];
    assert body[n + 2] == BlockFlags(b) && |head| == n + 3;
    FlagsRead(b);
    if |b.payloads| == 1 {
      SingleSubFrame(head, b.payloads[0]);
      assert [b.payloads[0]] == b.payloads;
    } else {
      LacedSubFrames(head, b.payloads);
    }
  }

  lemma BlockLeafRead(core: Core, top: Option<nat>, b: Block)
    requires Readable(b)
    ensures HandleLeaf(core, top, SIMPLE_BLOCK, BlockBody(b))
            == core.(frames := core.frames + FramesOf(b, core.clusterTimecode))
  {
    hide ParseBlock, BlockBody, BlockFlags;
    BlockParses(b, core.clusterTimecode);
    FlagsRead(b);
    var read := ParsedBlock(TrackRead(b.track), ClampI64(core.clusterTimecode + b.relative), BlockFlags(b), b.payloads);
    assert BlockFrames(read, b.isKeyframe, None) == FramesOf(b, core.clusterTimecode);
  }

  function BlocksBytes(blocks: seq<Block>): seq<Byte>
    requires forall i | 0 <= i < |blocks| :: Writable(blocks[i])
  {
    if blocks == [] then [] else BlocksBytes(blocks[..|blocks| - 1]) + BlockElem(blocks[|blocks| - 1])
  }

  function BlocksFrames(blocks: seq<Block>, base: I64): seq<Frame>
  {
    if blocks == [] then [] else BlocksFrames(blocks[..|blocks| - 1], base) + FramesOf(blocks[|blocks| - 1], base)
  }

  predicate AllReadable(blocks: seq<Block>)
  {
    forall i | 0 <= i < |blocks| :: Readable(blocks[i])
  }

  lemma {:induction false} ReadBlocks(
    pos: nat, stack: seq<OpenElement>, core: Core, blocks: seq<Block>, tail: seq<Byte>)
    requires AllReadable(blocks) && Room(stack, pos, |BlocksBytes(blocks)|)
    requires |BlocksBytes(blocks)| <= MAX_SIZE
    ensures Run(At(pos, BlocksBytes(blocks) + tail, stack, core))
            == Run(At(pos + |BlocksBytes(blocks)|, tail, stack,
                      core.(frames := core.frames + BlocksFrames(blocks, core.clusterTimecode))))
    decreases |blocks|
  {
    hide Run, HandleLeaf, Elem, FramesOf, BlockBody;
    if blocks == [] {
      assert [] + tail == tail;
      assert core.frames + [] == core.frames;
    } else {
      var front, b := blocks[..|blocks| - 1], blocks[|blocks| - 1];
      var at, mid := pos + |BlocksBytes(front)|, core.frames + BlocksFrames(front, core.clusterTimecode);
      assert BlocksBytes(blocks) + tail == BlocksBytes(front) + (BlockElem(b) + tail);
      ReadBlocks(pos, stack, core, front, BlockElem(b) + tail);
      ReadLeaf(at, stack, core.(frames := mid), SIMPLE_BLOCK, BlockBody(b), tail);
      BlockLeafRead(core.(frames := mid), TopId(stack), b);
      assert mid + FramesOf(b, core.clusterTimecode) == core.frames + BlocksFrames(blocks, core.clusterTimecode);
    }
  }

  const SEGMENT_OPEN: seq<OpenElement> := [OpenElement(SEGMENT, None)]

  lemma TimecodeRead(core: Core, top: Option<nat>, base: I64)
    requires base >= 0
    ensures HandleLeaf(core, top, TIMECODE, UintBody(base)) == core.(clusterTimecode := base)
  {
    hide UintBody, ReadUint;
    UintRoundTrip(base);
  }

  /** A Cluster yields its blocks' frames, told from the stored base, and leaves the reader in the Segment. */
  lemma {:induction false} ReadCluster(pos: nat, core: Core, base: I64, blocks: seq<Block>)
    requires AllReadable(blocks) && |ClusterBody(base, BlocksBytes(blocks))| <= MAX_SIZE
    ensures var c, stored := ClusterElem(base, BlocksBytes(blocks)), StoredBase(base);
            Run(At(pos, c, SEGMENT_OPEN, core))
            == Run(At(pos + |c|, [], SEGMENT_OPEN,
                      core.(clusterTimecode := stored, frames := core.frames + BlocksFrames(blocks, stored))))
  {
    hide Run, HandleLeaf, Elem, UintBody, BlocksBytes, BlocksFrames, HeaderLength, StoredBase;
    var bytes, stored := BlocksBytes(blocks), StoredBase(base);
    var body := ClusterBody(base, bytes);
    var c := ClusterElem(base, bytes);
    var end := pos + |c|;
    var stack := SEGMENT_OPEN + [OpenElement(CLUSTER, Some(end))];
    var p0 := pos + HeaderLength(CLUSTER, body);
    var p1 := p0 + |UintElem(TIMECODE, stored)|;
    ElemHeader(CLUSTER, body, []);
    assert c + [] == c && body + [] == body;
    OpenMaster(pos, SEGMENT_OPEN, core, CLUSTER, body, []);
    assert body == Elem(TIMECODE, UintBody(stored)) + bytes && bytes + [] == bytes;
    ReadLeaf(p0, stack, OnOpen(core, CLUSTER), TIMECODE, UintBody(stored), bytes);
    TimecodeRead(OnOpen(core, CLUSTER), Some(CLUSTER), stored);
    var entered := core.(clusterTimecode := stored);
    ReadBlocks(p1, stack, entered, blocks, []);
    CloseMaster(end, SEGMENT_OPEN, entered.(frames := core.frames + BlocksFrames(blocks, stored)), CLUSTER, []);
  }

  // ---- File header ----

  /** What a registered track is read back as: only the fields its type carries, defaults for the rest. */
  function Demuxed(t: TrackInfo): TrackInfo
  {
    if t.trackType == VIDEO_TYPE then t.(sampleRate := DEFAULT_SAMPLE_RATE, channels := 1)
    else t.(width := 0, height := 0)
  }

  function DemuxedAll(tracks: seq<TrackInfo>): (r: seq<TrackInfo>)
    ensures |r| == |tracks|
  {
    seq(|tracks|, i requires 0 <= i < |tracks| => Demuxed(tracks[i]))
  }

  lemma ReadTrackLeaf(pos: nat, stack: seq<OpenElement>, core: Core, id: nat, body: seq<Byte>, tail: seq<Byte>)
    requires IsTrackLeaf(id) && core.track.Some? && |body| <= MAX_SIZE && Room(stack, pos, |Elem(id, body)|)
    ensures Run(At(pos, Elem(id, body) + tail, stack, core))
            == Run(At(pos + |Elem(id, body)|, tail, stack,
                      core.(track := Some(TrackLeaf(core.track.value, TopId(stack), id, body)))))
  {
    hide Run, Elem, TrackLeaf;
    ReadLeaf(pos, stack, core, id, body, tail);
  }

  lemma TrackUints(t: TrackScratch, v: nat)
    requires v < U64_LIMIT
    ensures forall top :: TrackLeaf(t, top, TRACK_NUMBER, UintBody(v)) == t.(trackNumber := Some(v))
    ensures v < 0x100 ==> forall top :: TrackLeaf(t, top, TRACK_TYPE, UintBody(v)) == t.(trackType := Some(v))
    ensures v < 0x1_0000_0000 ==>
              && TrackLeaf(t, Some(VIDEO), PIXEL_WIDTH, UintBody(v)) == t.(width := v)
              && TrackLeaf(t, Some(VIDEO), PIXEL_HEIGHT, UintBody(v)) == t.(height := v)
              && TrackLeaf(t, Some(AUDIO), CHANNELS, UintBody(v)) == t.(channels := Some(v))
  {
    hide UintBody, ReadUint;
    UintRoundTrip(v);
  }

  /** The Video or Audio element of a track entry. */
  lemma ReadMedia(pos: nat, stack: seq<OpenElement>, core: Core, t: TrackInfo, tail: seq<Byte>)
    requires TrackFields(t) && core.track.Some? && |MediaElem(t)| <= MAX_SIZE && stack != []
    requires !TopUnknownCluster(stack) && Room(stack, pos, |MediaElem(t)|)
    ensures var k := core.track.value;
            Run(At(pos, MediaElem(t) + tail, stack, core))
            == Run(At(pos + |MediaElem(t)|, tail, stack, core.(track := Some(
                 if t.trackType == VIDEO_TYPE then k.(width := t.width, height := t.height)
                 else k.(sampleRate := Some(t.sampleRate), channels := Some(t.channels))))))
  {
    if t.trackType == VIDEO_TYPE {
      ReadVideo(pos, stack, core, t, tail);
    } else {
      ReadAudio(pos, stack, core, t, tail);
    }
  }

  lemma ReadVideo(pos: nat, stack: seq<OpenElement>, core: Core, t: TrackInfo, tail: seq<Byte>)
    requires TrackFields(t) && core.track.Some? && |MediaElem(t)| <= MAX_SIZE && stack != []
    requires !TopUnknownCluster(stack) && Room(stack, pos, |MediaElem(t)|) && t.trackType == VIDEO_TYPE
    ensures Run(At(pos, MediaElem(t) + tail, stack, core))
            == Run(At(pos + |MediaElem(t)|, tail, stack,
                      core.(track := Some(core.track.value.(width := t.width, height := t.height)))))
  {
    hide Run, Elem, UintBody, TrackLeaf, HeaderLength;
    var body, end, k := VideoBody(t), pos + |MediaElem(t)|, core.track.value;
    var inner := stack + [OpenElement(VIDEO, Some(end))];
    var p0 := pos + HeaderLength(VIDEO, body);
    var w, h := Elem(PIXEL_WIDTH, UintBody(t.width)), Elem(PIXEL_HEIGHT, UintBody(t.height));
    ElemHeader(VIDEO, body, []);
    OpenMaster(pos, stack, core, VIDEO, body, tail);
    assert body + tail == w + (h + tail);
    ReadTrackLeaf(p0, inner, core, PIXEL_WIDTH, UintBody(t.width), h + tail);
    TrackUints(k, t.width);
    var core1 := core.(track := Some(k.(width := t.width)));
    ReadTrackLeaf(p0 + |w|, inner, core1, PIXEL_HEIGHT, UintBody(t.height), tail);
    TrackUints(k.(width := t.width), t.height);
    var core2 := core.(track := Some(k.(width := t.width, height := t.height)));
    CloseMaster(end, stack, core2, VIDEO, tail);
  }

  lemma ReadAudio(pos: nat, stack: seq<OpenElement>, core: Core, t: TrackInfo, tail: seq<Byte>)
    requires TrackFields(t) && core.track.Some? && |MediaElem(t)| <= MAX_SIZE && stack != []
    requires !TopUnknownCluster(stack) && Room(stack, pos, |MediaElem(t)|) && t.trackType != VIDEO_TYPE
    ensures Run(At(pos, MediaElem(t) + tail, stack, core))
            == Run(At(pos + |MediaElem(t)|, tail, stack, core.(track := Some(
                 core.track.value.(sampleRate := Some(t.sampleRate), channels := Some(t.channels))))))
  {
    hide Run, Elem, UintBody, HeaderLength, ReadUint, TrackLeaf;
    var body, end, k := AudioBody(t), pos + |MediaElem(t)|, core.track.value;
    var inner := stack + [OpenElement(AUDIO, Some(end))];
    var p0 := pos + HeaderLength(AUDIO, body);
    var r, c := Elem(SAMPLING_FREQUENCY, t.sampleRate), Elem(CHANNELS, UintBody(t.channels));
    ElemHeader(AUDIO, body, []);
    OpenMaster(pos, stack, core, AUDIO, body, tail);
    assert body + tail == r + (c + tail);
    ReadTrackLeaf(p0, inner, core, SAMPLING_FREQUENCY, t.sampleRate, c + tail);
    TrackStrings(k, Some(AUDIO), t.sampleRate);
    var core1 := core.(track := Some(k.(sampleRate := Some(t.sampleRate))));
    ReadTrackLeaf(p0 + |r|, inner, core1, CHANNELS, UintBody(t.channels), tail);
    TrackUints(core1.track.value, t.channels);
    var core2 := core.(track := Some(k.(sampleRate := Some(t.sampleRate), channels := Some(t.channels))));
    CloseMaster(end, stack, core2, AUDIO, tail);
  }

  lemma TrackStrings(k: TrackScratch, top: Option<nat>, body: seq<Byte>)
    ensures TrackLeaf(k, top, CODEC_ID, body) == k.(codecId := Some(body))
    ensures TrackLeaf(k, top, CODEC_PRIVATE, body) == k.(codecPrivate := Some(body))
    ensures top == Some(AUDIO) && |body| == 8 ==>
              TrackLeaf(k, top, SAMPLING_FREQUENCY, body) == k.(sampleRate := Some(body))
  {
  }

  function Scratch(t: TrackInfo): TrackScratch
  {
    TrackScratch(Some(t.trackNumber), Some(t.trackType), Some(t.codecId), t.codecPrivate, 0, 0, None, None)
  }

  /** The leaves of a track entry, up to its Video or Audio element. */
  lemma ReadEntryLeaves(pos: nat, stack: seq<OpenElement>, core: Core, t: TrackInfo, tail: seq<Byte>)
    requires TrackFields(t) && core.track == Some(EMPTY_TRACK)
    requires |TrackEntryBody(t)| <= MAX_SIZE && Room(stack, pos, |TrackEntryBody(t)|)
    ensures Run(At(pos, TrackEntryBody(t) + tail, stack, core))
            == Run(At(pos + |TrackEntryBody(t)| - |MediaElem(t)|, MediaElem(t) + tail, stack,
                      core.(track := Some(Scratch(t)))))
  {
    hide Run, Elem, UintBody, TrackLeaf, MediaElem;
    var n, y := Elem(TRACK_NUMBER, UintBody(t.trackNumber)), Elem(TRACK_TYPE, UintBody(t.trackType));
    var c, p, m := Elem(CODEC_ID, t.codecId), PrivateElem(t), MediaElem(t) + tail;
    var k1 := EMPTY_TRACK.(trackNumber := Some(t.trackNumber));
    var k2 := k1.(trackType := Some(t.trackType));
    var k3 := k2.(codecId := Some(t.codecId));
    var top := TopId(stack);
    TrackUints(EMPTY_TRACK, t.trackNumber);
    TrackUints(k1, t.trackType);
    RegroupEntry(n, y, c, p, MediaElem(t), tail);
    ReadTrackLeaf(pos, stack, core, TRACK_NUMBER, UintBody(t.trackNumber), y + (c + (p + m)));
    ReadTrackLeaf(pos + |n|, stack, core.(track := Some(k1)), TRACK_TYPE, UintBody(t.trackType), c + (p + m));
    TrackStrings(k2, top, t.codecId);
    ReadTrackLeaf(pos + |n| + |y|, stack, core.(track := Some(k2)), CODEC_ID, t.codecId, p + m);
    if t.codecPrivate.Some? {
      TrackStrings(k3, top, t.codecPrivate.value);
      ReadTrackLeaf(pos + |n| + |y| + |c|, stack, core.(track := Some(k3)), CODEC_PRIVATE, t.codecPrivate.value, m);
    } else {
      assert p + m == m;
    }
  }

  lemma RegroupEntry(n: seq<Byte>, y: seq<Byte>, c: seq<Byte>, p: seq<Byte>, m: seq<Byte>, tail: seq<Byte>)
    ensures n + y + c + p + m + tail == n + (y + (c + (p + (m + tail))))
  {
  }

  lemma ReadTrackEntry(pos: nat, stack: seq<OpenElement>, core: Core, t: TrackInfo, tail: seq<Byte>)
    requires TrackFields(t) && |Elem(TRACK_ENTRY, TrackEntryBody(t))| <= MAX_SIZE && stack != []
    requires !TopUnknownCluster(stack) && Room(stack, pos, |Elem(TRACK_ENTRY, TrackEntryBody(t))|)
    ensures var e := Elem(TRACK_ENTRY, TrackEntryBody(t));
            Run(At(pos, e + tail, stack, core))
            == Run(At(pos + |e|, tail, stack, core.(track := None, tracks := core.tracks + [Demuxed(t)])))
  {
    hide Run, Elem, TrackEntryBody, MediaElem, HeaderLength;
    var body := TrackEntryBody(t);
    var end := pos + |Elem(TRACK_ENTRY, body)|;
    var inner := stack + [OpenElement(TRACK_ENTRY, Some(end))];
    var p0 := pos + HeaderLength(TRACK_ENTRY, body);
    ElemHeader(TRACK_ENTRY, body, []);
    OpenMaster(pos, stack, core, TRACK_ENTRY, body, tail);
    var core0 := core.(track := Some(EMPTY_TRACK));
    ReadEntryLeaves(p0, inner, core0, t, tail);
    MediaWithin(t);
    var core1 := core.(track := Some(Scratch(t)));
    ReadMedia(end - |MediaElem(t)|, inner, core1, t, tail);
    var k := Scratch(t);
    var done := if t.trackType == VIDEO_TYPE then k.(width := t.width, height := t.height)
                else k.(sampleRate := Some(t.sampleRate), channels := Some(t.channels));
    CloseMaster(end, stack, core.(track := Some(done)), TRACK_ENTRY, tail);
    assert FinishTrack(done) == Some(Demuxed(t));
  }

  lemma MediaWithin(t: TrackInfo)
    ensures |MediaElem(t)| <= |TrackEntryBody(t)|
  {
  }

  lemma {:induction false} ReadTrackEntries(
    pos: nat, stack: seq<OpenElement>, core: Core, tracks: seq<TrackInfo>, tail: seq<Byte>)
    requires (forall i | 0 <= i < |tracks| :: TrackFields(tracks[i])) && core.track.None? && stack != []
    requires !TopUnknownCluster(stack) && Room(stack, pos, |TrackEntries(tracks)|) && |TrackEntries(tracks)| <= MAX_SIZE
    ensures Run(At(pos, TrackEntries(tracks) + tail, stack, core))
            == Run(At(pos + |TrackEntries(tracks)|, tail, stack, core.(tracks := core.tracks + DemuxedAll(tracks))))
    decreases |tracks|
  {
    hide Run, Elem, TrackEntryBody, Demuxed;
    if tracks == [] {
      assert [] + tail == tail;
      assert core.tracks + [] == core.tracks;
    } else {
      var front, t := tracks[..|tracks| - 1], tracks[|tracks| - 1];
      var e := Elem(TRACK_ENTRY, TrackEntryBody(t));
      assert TrackEntries(tracks) + tail == TrackEntries(front) + (e + tail);
      ReadTrackEntries(pos, stack, core, front, e + tail);
      var mid := core.(tracks := core.tracks + DemuxedAll(front));
      ReadTrackEntry(pos + |TrackEntries(front)|, stack, mid, t, tail);
      assert mid.tracks + [Demuxed(t)] == core.tracks + DemuxedAll(tracks);
    }
  }

  lemma ReadTracks(pos: nat, core: Core, tracks: seq<TrackInfo>)
    requires (forall i | 0 <= i < |tracks| :: TrackFields(tracks[i])) && core.track.None?
    requires |TracksElem(tracks)| <= MAX_SIZE
    ensures Run(At(pos, TracksElem(tracks), SEGMENT_OPEN, core))
            == Run(At(pos + |TracksElem(tracks)|, [], SEGMENT_OPEN, core.(tracks := core.tracks + DemuxedAll(tracks))))
  {
    hide Run, Elem, TrackEntries, HeaderLength, DemuxedAll, TrackFields, TracksElem;
    TracksAre(tracks);
    if tracks == [] {
      assert core.tracks + DemuxedAll([]) == core.tracks;
    } else {
      ReadSomeTracks(pos, core, tracks);
    }
  }

  lemma ReadSomeTracks(pos: nat, core: Core, tracks: seq<TrackInfo>)
    requires (forall i | 0 <= i < |tracks| :: TrackFields(tracks[i])) && core.track.None?
    requires |Elem(TRACKS, TrackEntries(tracks))| <= MAX_SIZE
    ensures var bytes := Elem(TRACKS, TrackEntries(tracks));
            Run(At(pos, bytes, SEGMENT_OPEN, core))
            == Run(At(pos + |bytes|, [], SEGMENT_OPEN, core.(tracks := core.tracks + DemuxedAll(tracks))))
  {
    hide Run, Elem, TrackEntries, HeaderLength, DemuxedAll, TrackFields, At, SelfDelimiting;
    var body := TrackEntries(tracks);
    var end := pos + |Elem(TRACKS, body)|;
    var inner := SEGMENT_OPEN + [OpenElement(TRACKS, Some(end))];
    var after := core.(tracks := core.tracks + DemuxedAll(tracks));
    TracksIdIsGood();
    ElemHeader(TRACKS, body, []);
    assert Elem(TRACKS, body) + [] == Elem(TRACKS, body) && body + [] == body;
    OpenMaster(pos, SEGMENT_OPEN, core, TRACKS, body, []);
    assert OnOpen(core, TRACKS) == core && OnClose(after, TRACKS) == after;
    ReadTrackEntries(pos + HeaderLength(TRACKS, body), inner, core, tracks, []);
    CloseMaster(end, SEGMENT_OPEN, after, TRACKS, []);
  }

  lemma TracksIdIsGood()
    ensures SelfDelimiting(TRACKS)
  {
  }

  lemma TracksAre(tracks: seq<TrackInfo>)
    ensures TracksElem(tracks) == if tracks == [] then [] else Elem(TRACKS, TrackEntries(tracks))
  {
  }

  lemma ReadInfo(pos: nat, core: Core, scale: nat, tail: seq<Byte>)
    requires 1 <= scale < U64_LIMIT
    ensures var info := Elem(SEGMENT_INFO, UintElem(TIMECODE_SCALE, scale));
            Run(At(pos, info + tail, SEGMENT_OPEN, core))
            == Run(At(pos + |info|, tail, SEGMENT_OPEN, core.(timecodeScale := scale)))
  {
    hide Run, UintBody, HeaderLength, HandleLeaf, IdBytes, SizeBytes;
    var body := UintElem(TIMECODE_SCALE, scale);
    var info := Elem(SEGMENT_INFO, body);
    var end := pos + |info|;
    var inner := SEGMENT_OPEN + [OpenElement(SEGMENT_INFO, Some(end))];
    ElemHeader(SEGMENT_INFO, body, []);
    OpenMaster(pos, SEGMENT_OPEN, core, SEGMENT_INFO, body, tail);
    ReadLeaf(pos + HeaderLength(SEGMENT_INFO, body), inner, core, TIMECODE_SCALE, UintBody(scale), tail);
    ScaleRead(core, scale);
    CloseMaster(end, SEGMENT_OPEN, core.(timecodeScale := scale), SEGMENT_INFO, tail);
  }

  lemma ScaleRead(core: Core, scale: nat)
    requires 1 <= scale < U64_LIMIT
    ensures forall top :: HandleLeaf(core, top, TIMECODE_SCALE, UintBody(scale)) == core.(timecodeScale := scale)
  {
    hide UintBody, ReadUint;
    UintRoundTrip(scale);
  }

  /** The EBML header is skipped and the Segment entered. */
  lemma ReadPreamble(tail: seq<Byte>)
    ensures var preamble := Elem(EBML_HEADER, EbmlHeaderBody()) + IdBytes(SEGMENT) + UnknownBytes(4);
            Run(At(0, preamble + tail, [], EMPTY_CORE)) == Run(At(|preamble|, tail, SEGMENT_OPEN, EMPTY_CORE))
  {
    hide Run, Elem, EbmlHeaderBody, IdBytes, UnknownBytes;
    var header, segment := Elem(EBML_HEADER, EbmlHeaderBody()), IdBytes(SEGMENT) + UnknownBytes(4);
    HeaderBodyShort();
    assert header + IdBytes(SEGMENT) + UnknownBytes(4) + tail == header + (segment + tail);
    ReadLeaf(0, [], EMPTY_CORE, EBML_HEADER, EbmlHeaderBody(), segment + tail);
    EnterSegment(|header|, tail);
  }

  lemma HeaderBodyShort()
    ensures |EbmlHeaderBody()| <= MAX_SIZE
  {
    hide UintBody, IdBytes, SizeBytes;
  }

  lemma EnterSegment(pos: nat, tail: seq<Byte>)
    ensures Run(At(pos, IdBytes(SEGMENT) + UnknownBytes(4) + tail, [], EMPTY_CORE))
            == Run(At(pos + 8, tail, SEGMENT_OPEN, EMPTY_CORE))
  {
    hide IdBytes, UnknownBytes, IdAt, SizeAt, HandleLeaf;
    var s := At(pos, IdBytes(SEGMENT) + UnknownBytes(4) + tail, [], EMPTY_CORE);
    assert s.rest == IdBytes(SEGMENT) + (UnknownBytes(4) + tail);
    IdRoundTrip(SEGMENT, UnknownBytes(4) + tail);
    assert s.rest[4..] == UnknownBytes(4) + tail;
    UnknownDecodes(4, tail);
    assert ReadHeader(s.rest) == Complete(SEGMENT, None, 8);
    assert s.rest[8..] == tail;
    assert CloseFinished(s) == s && CloseBeforeSibling(s, SEGMENT) == s;
    assert [] + [OpenElement(SEGMENT, None)] == SEGMENT_OPEN;
    assert Step(s) == (At(pos + 8, tail, SEGMENT_OPEN, EMPTY_CORE), true);
  }

  /** After the file header the reader knows the tracks and the scale, and waits in the Segment. */
  lemma ReadFileHeader(scale: nat, tracks: seq<TrackInfo>)
    requires (forall i | 0 <= i < |tracks| :: TrackFields(tracks[i])) && 1 <= scale < U64_LIMIT
    requires |FileHeader(scale, tracks)| <= MAX_SIZE
    ensures var h := FileHeader(scale, tracks);
            OnePass(h) == At(|h|, [], SEGMENT_OPEN, EMPTY_CORE.(timecodeScale := scale, tracks := DemuxedAll(tracks)))
  {
    hide Run, Elem, EbmlHeaderBody, IdBytes, UnknownBytes, TracksElem, UintElem;
    var preamble := Elem(EBML_HEADER, EbmlHeaderBody()) + IdBytes(SEGMENT) + UnknownBytes(4);
    var info, rest := Elem(SEGMENT_INFO, UintElem(TIMECODE_SCALE, scale)), TracksElem(tracks);
    assert FileHeader(scale, tracks) == preamble + (info + rest);
    assert Feed(START, FileHeader(scale, tracks)) == At(0, preamble + (info + rest), [], EMPTY_CORE);
    ReadPreamble(info + rest);
    ReadInfo(|preamble|, EMPTY_CORE, scale, rest);
    var core := EMPTY_CORE.(timecodeScale := scale);
    ReadTracks(|preamble| + |info|, core, tracks);
    assert core.tracks + DemuxedAll(tracks) == DemuxedAll(tracks);
    IdleRun(|FileHeader(scale, tracks)|, core.(tracks := DemuxedAll(tracks)));
  }

  lemma IdleRun(pos: nat, core: Core)
    ensures Run(At(pos, [], SEGMENT_OPEN, core)) == At(pos, [], SEGMENT_OPEN, core)
  {
    assert CloseFinished(At(pos, [], SEGMENT_OPEN, core)) == At(pos, [], SEGMENT_OPEN, core);
  }

  // ---- Whole runs ----

  function FramesAt(track: nat, timecode: I64, key: bool, payloads: seq<seq<Byte>>): seq<Frame>
  {
    seq(|payloads|, i requires 0 <= i < |payloads| => Frame(track, timecode, key, None, payloads[i]))
  }

  /** The timecode a frame is read back with: its distance from the Cluster's base, told from the stored base. */
  function TimeRead(base: I64, timecode: I64): I64
  {
    ClampI64(StoredBase(base) + Since(timecode, base))
  }

  /** The base of the Cluster that a push at `timecode` lands in. */
  function BaseFor(m: MuxState, timecode: I64): I64
  {
    OpenClusterFor(m, timecode).clusterTimecode.value
  }

  /** What is read back for one operation: nothing for a refused one, every payload of an accepted one. */
  function Expected(m: MuxState, op: Op): seq<Frame>
  {
    if Refusal(m.tracks, op).Some? then []
    else match op
      case PushFrame(track, timecode, key, payload) =>
        FramesAt(TrackRead(track), TimeRead(BaseFor(m, timecode), timecode), key, [payload])
      case PushLaced(track, timecode, key, payloads) =>
        FramesAt(TrackRead(track), TimeRead(BaseFor(m, timecode), timecode), key, payloads)
      case _ => []
  }

  function ExpectedAll(m: MuxState, ops: seq<Op>): seq<Frame>
  {
    if ops == [] then []
    else ExpectedAll(m, ops[..|ops| - 1]) + Expected(ApplyAll(m, ops[..|ops| - 1]), ops[|ops| - 1])
  }

  function Written(m: MuxState): seq<Byte>
  {
    m.polled + m.pending
  }

  function Size(m: MuxState): nat
  {
    |m.polled| + |m.pending| + |m.cluster|
  }

  /** What the bytes written so far stand for: frames of closed Clusters, blocks of the open one. */
  datatype Account = Account(closed: seq<Frame>, blocks: seq<Block>, lastTimecode: I64)

  predicate Accounts(m: MuxState, a: Account)
  {
    && (m.clusterTimecode.None? ==> a.blocks == [])
    && AllReadable(a.blocks) && m.cluster == BlocksBytes(a.blocks)
    && OnePass(Written(m)) == At(|Written(m)|, [], SEGMENT_OPEN, CoreOf(m, a))
  }

  function CoreOf(m: MuxState, a: Account): Core
  {
    EMPTY_CORE.(timecodeScale := m.scale, tracks := DemuxedAll(m.tracks), clusterTimecode := a.lastTimecode,
                frames := a.closed)
  }

  function AllFrames(m: MuxState, a: Account): seq<Frame>
  {
    a.closed + match m.clusterTimecode case None => [] case Some(base) => BlocksFrames(a.blocks, StoredBase(base))
  }

  lemma {:induction false} CloseAccounts(m: MuxState, a: Account) returns (b: Account)
    requires Accounts(m, a) && Size(CloseCluster(m)) < DELTA_LIMIT
    ensures Accounts(CloseCluster(m), b) && b.closed == AllFrames(m, a) && b.blocks == []
  {
    hide Run, OnePass, ClusterElem, BlocksFrames, DemuxedAll, BlocksBytes, AllReadable, ClusterBody;
    if m.clusterTimecode.None? || m.cluster == [] {
      NoBlocks(a.blocks);
      NoFrames(StoredBase(GetOr(m.clusterTimecode, 0)));
      assert a.closed + [] == a.closed;
      b := a.(blocks := []);
      EmptyAccounts(CloseCluster(m), b);
    } else {
      var base, w := m.clusterTimecode.value, Written(m);
      var c := ClusterElem(base, m.cluster);
      assert Written(CloseCluster(m)) == w + c;
      ClusterWithin(base, m.cluster);
      b := Account(AllFrames(m, a), [], StoredBase(base));
      ClusterRead(w, CoreOf(m, a), base, a.blocks);
      EmptyAccounts(CloseCluster(m), b);
    }
  }

  lemma EmptyAccounts(m: MuxState, a: Account)
    requires m.clusterTimecode.None? && m.cluster == [] && a.blocks == []
    requires OnePass(Written(m)) == At(|Written(m)|, [], SEGMENT_OPEN, CoreOf(m, a))
    ensures Accounts(m, a)
  {
  }

  /** A file read so far, and one more Cluster. */
  lemma ClusterRead(w: seq<Byte>, core: Core, base: I64, blocks: seq<Block>)
    requires OnePass(w) == At(|w|, [], SEGMENT_OPEN, core)
    requires AllReadable(blocks) && |ClusterBody(base, BlocksBytes(blocks))| <= MAX_SIZE
    ensures var file, stored := w + ClusterElem(base, BlocksBytes(blocks)), StoredBase(base);
            OnePass(file) == At(|file|, [], SEGMENT_OPEN,
                                core.(clusterTimecode := stored, frames := core.frames + BlocksFrames(blocks, stored)))
  {
    hide Run, OnePass, ClusterElem, BlocksFrames, BlocksBytes, ClusterBody;
    var c := ClusterElem(base, BlocksBytes(blocks));
    Resume(w, c);
    ReadCluster(|w|, core, base, blocks);
    var stored := StoredBase(base);
    IdleRun(|w + c|, core.(clusterTimecode := stored, frames := core.frames + BlocksFrames(blocks, stored)));
    assert [] + c == c;
  }

  lemma NoFrames(base: I64)
    ensures BlocksFrames([], base) == []
  {
  }

  lemma NoBlocks(blocks: seq<Block>)
    requires AllReadable(blocks)
    ensures BlocksBytes(blocks) == [] ==> blocks == []
  {
  }

  lemma ClusterWithin(base: I64, blocks: seq<Byte>)
    ensures |ClusterElem(base, blocks)| > |ClusterBody(base, blocks)| >= |blocks|
  {
  }

  lemma OpenAccounts(m: MuxState, a: Account, timecode: I64) returns (b: Account)
    requires Accounts(m, a) && Size(OpenClusterFor(m, timecode)) < DELTA_LIMIT
    ensures Accounts(OpenClusterFor(m, timecode), b) && AllFrames(OpenClusterFor(m, timecode), b) == AllFrames(m, a)
  {
    hide Run, OnePass, CloseCluster, BlocksFrames, Since, BlocksBytes;
    if NeedsCluster(m, timecode) {
      b := CloseAccounts(m, a);
      NoFrames(StoredBase(timecode));
      assert b.closed + [] == b.closed;
    } else {
      b := a;
    }
  }

  /** Blocks are only held while a Cluster is open. */
  predicate Tidy(m: MuxState)
  {
    m.clusterTimecode.None? ==> m.cluster == []
  }

  lemma ClosedKeeps(m: MuxState)
    requires Tidy(m)
    ensures CloseCluster(m).tracks == m.tracks && CloseCluster(m).scale == m.scale && CloseCluster(m).cluster == []
    ensures Size(CloseCluster(m)) >= Size(m)
  {
    if m.clusterTimecode.Some? {
      ClusterWithin(m.clusterTimecode.value, m.cluster);
    }
  }

  lemma {:induction false} PayloadWithin(payloads: seq<seq<Byte>>, i: nat)
    requires i < |payloads|
    ensures |payloads[i]| <= |Concat(payloads)|
  {
    if i < |payloads| - 1 {
      PayloadWithin(payloads[..|payloads| - 1], i);
    }
  }

  lemma BlockWithin(b: Block)
    requires Writable(b)
    ensures forall i | 0 <= i < |b.payloads| :: |b.payloads[i]| <= |BlockElem(b)|
  {
    forall i | 0 <= i < |b.payloads|
      ensures |b.payloads[i]| <= |BlockElem(b)|
    {
      PayloadWithin(b.payloads, i);
    }
  }

  lemma {:induction false} PushAccounts(
    m: MuxState, a: Account, track: nat, timecode: I64, key: bool, payloads: seq<seq<Byte>>) returns (b: Account)
    requires Accounts(m, a) && 1 <= |payloads| <= MAX_LACED_FRAMES
    requires Size(PushBlock(m, track, timecode, key, payloads)) < DELTA_LIMIT
    ensures Accounts(PushBlock(m, track, timecode, key, payloads), b)
    ensures AllFrames(PushBlock(m, track, timecode, key, payloads), b) == AllFrames(m, a)
            + FramesAt(TrackRead(track), TimeRead(BaseFor(m, timecode), timecode), key, payloads)
  {
    hide Accounts, AllFrames, BlockElem, OpenClusterFor, FramesAt;
    OpenedFits(m, timecode);
    b := OpenAccounts(m, a, timecode);
    var o := OpenClusterFor(m, timecode);
    var base := o.clusterTimecode.value;
    var block := Block(track, Since(timecode, base), key, payloads);
    BlockWithin(block);
    BlockTime(block, base, timecode);
    b := BlockAdded(o, b, block);
  }

  lemma BlockTime(b: Block, base: I64, timecode: I64)
    requires b.relative == Since(timecode, base)
    ensures FramesOf(b, StoredBase(base))
            == FramesAt(TrackRead(b.track), TimeRead(base, timecode), b.isKeyframe, b.payloads)
  {
  }

  /** A block appended to the open Cluster adds its frames. */
  lemma BlockAdded(o: MuxState, a: Account, block: Block) returns (b: Account)
    requires Accounts(o, a) && o.clusterTimecode.Some? && Readable(block)
    ensures var after := o.(cluster := o.cluster + BlockElem(block), clusterFrames := o.clusterFrames + 1);
            Accounts(after, b)
            && AllFrames(after, b) == AllFrames(o, a) + FramesOf(block, StoredBase(o.clusterTimecode.value))
  {
    hide OnePass, BlockElem, StoredBase, FramesOf, Readable, DemuxedAll;
    var stored := StoredBase(o.clusterTimecode.value);
    var blocks := a.blocks + [block];
    assert blocks[..|blocks| - 1] == a.blocks;
    b := a.(blocks := blocks);
    assert a.closed + (BlocksFrames(a.blocks, stored) + FramesOf(block, stored))
        == a.closed + BlocksFrames(a.blocks, stored) + FramesOf(block, stored);
  }

  lemma ApplyAccounts(m: MuxState, a: Account, op: Op) returns (b: Account)
    requires Accounts(m, a) && Size(Apply(m, op)) < DELTA_LIMIT
    ensures Accounts(Apply(m, op), b)
    ensures AllFrames(Apply(m, op), b) == AllFrames(m, a) + Expected(m, op)
  {
    hide Run, OnePass, PushBlock, CloseCluster, BlocksFrames, AllFrames, Accounts, Refusal, Size;
    assert AllFrames(m, a) + [] == AllFrames(m, a);
    b := a;
    if Refusal(m.tracks, op).None? {
      AcceptedLace(m.tracks, op);
      match op
      case PushFrame(track, timecode, key, payload) =>
        b := PushAccounts(m, a, track, timecode, key, [payload]);
      case PushLaced(track, timecode, key, payloads) =>
        b := PushAccounts(m, a, track, timecode, key, payloads);
      case Flush =>
        b := CloseAccounts(m, a);
        ClosedFrames(m, a, b);
      case Poll =>
        PolledAccounts(m, a);
    }
  }

  lemma AcceptedLace(tracks: seq<TrackInfo>, op: Op)
    requires Refusal(tracks, op).None?
    ensures op.PushLaced? ==> 1 <= |op.payloads| <= MAX_LACED_FRAMES
  {
  }

  lemma ClosedFrames(m: MuxState, a: Account, b: Account)
    requires b.closed == AllFrames(m, a) && b.blocks == []
    ensures AllFrames(CloseCluster(m), b) == AllFrames(m, a)
  {
    assert b.closed + [] == b.closed;
  }

  lemma PolledAccounts(m: MuxState, a: Account)
    requires Accounts(m, a)
    ensures Accounts(Apply(m, Poll), a) && AllFrames(Apply(m, Poll), a) == AllFrames(m, a)
  {
    hide OnePass, Run, BlocksFrames, BlocksBytes;
    assert Written(Apply(m, Poll)) == Written(m);
  }

  lemma ApplyGrows(m: MuxState, op: Op)
    requires Tidy(m)
    ensures Tidy(Apply(m, op))
    ensures Apply(m, op).tracks == m.tracks && Apply(m, op).scale == m.scale && Size(Apply(m, op)) >= Size(m)
  {
    hide CloseCluster, BlockElem, Since, Registered, Refusal;
    ClosedKeeps(m);
  }

  lemma {:induction false} RunTidy(m: MuxState, ops: seq<Op>)
    requires Tidy(m)
    ensures Tidy(ApplyAll(m, ops))
    decreases |ops|
  {
    hide Apply;
    if ops != [] {
      RunTidy(m, ops[..|ops| - 1]);
      ApplyGrows(ApplyAll(m, ops[..|ops| - 1]), ops[|ops| - 1]);
    }
  }

  /** Registered tracks, whatever was refused on the way, and the stream begun. */
  function Registering(scale: nat, batch: nat, attempts: seq<TrackInfo>): MuxState
  {
    if attempts == [] then NewMux(scale, batch)
    else AddTrack(Registering(scale, batch, attempts[..|attempts| - 1]), attempts[|attempts| - 1]).0
  }

  lemma {:induction false} RegisteredFields(scale: nat, batch: nat, attempts: seq<TrackInfo>)
    requires forall i | 0 <= i < |attempts| :: TrackFields(attempts[i])
    ensures var m := Registering(scale, batch, attempts);
            && (forall i | 0 <= i < |m.tracks| :: TrackFields(m.tracks[i]))
            && m == NewMux(scale, batch).(tracks := m.tracks)
  {
    if attempts != [] {
      RegisteredFields(scale, batch, attempts[..|attempts| - 1]);
    }
  }

  lemma BeginAccounts(m: MuxState) returns (a: Account)
    requires m == NewMux(m.scale, m.batch).(tracks := m.tracks) && 1 <= m.scale < U64_LIMIT
    requires forall i | 0 <= i < |m.tracks| :: TrackFields(m.tracks[i])
    requires Size(Begin(m)) < DELTA_LIMIT
    ensures Accounts(Begin(m), a) && AllFrames(Begin(m), a) == []
  {
    hide Run, OnePass, FileHeader;
    assert Written(Begin(m)) == FileHeader(m.scale, m.tracks);
    ReadFileHeader(m.scale, m.tracks);
    a := Account([], [], 0);
  }

  lemma {:induction false} RunAccounts(m: MuxState, ops: seq<Op>) returns (a: Account)
    requires m == NewMux(m.scale, m.batch).(tracks := m.tracks) && 1 <= m.scale < U64_LIMIT
    requires forall i | 0 <= i < |m.tracks| :: TrackFields(m.tracks[i])
    requires Size(ApplyAll(Begin(m), ops)) < DELTA_LIMIT
    ensures Accounts(ApplyAll(Begin(m), ops), a)
    ensures AllFrames(ApplyAll(Begin(m), ops), a) == ExpectedAll(Begin(m), ops)
    ensures ApplyAll(Begin(m), ops).tracks == m.tracks && ApplyAll(Begin(m), ops).scale == m.scale
    decreases |ops|
  {
    hide Apply, Accounts, AllFrames, Begin, Expected;
    if ops == [] {
      BegunKeeps(m);
      a := BeginAccounts(m);
    } else {
      var before := ApplyAll(Begin(m), ops[..|ops| - 1]);
      BegunKeeps(m);
      RunTidy(Begin(m), ops[..|ops| - 1]);
      ApplyGrows(before, ops[|ops| - 1]);
      a := RunAccounts(m, ops[..|ops| - 1]);
      a := ApplyAccounts(before, a, ops[|ops| - 1]);
    }
  }

  lemma BegunKeeps(m: MuxState)
    ensures Tidy(m) ==> Tidy(Begin(m))
    ensures Begin(m).tracks == m.tracks && Begin(m).scale == m.scale
  {
    hide FileHeader;
  }

  /** Everything written once the stream has been flushed and polled. */
  function Finished(m: MuxState, ops: seq<Op>): MuxState
  {
    Apply(Apply(ApplyAll(Begin(m), ops), Flush), Poll)
  }

  lemma FinishedWritten(m: MuxState, a: Account)
    requires Accounts(m, a) && Tidy(m) && Size(Apply(m, Flush)) < DELTA_LIMIT
    ensures var f := Apply(Apply(m, Flush), Poll);
            && f.pending == [] && Size(f) == |f.polled|
            && exists last :: OnePass(f.polled)
                   == At(|f.polled|, [], SEGMENT_OPEN, CoreOf(m, Account(AllFrames(m, a), [], last)))
  {
    hide Run, OnePass, CloseCluster, AllFrames;
    ClosedKeeps(m);
    var b := CloseAccounts(m, a);
    var f := Apply(Apply(m, Flush), Poll);
    assert f.polled == Written(CloseCluster(m));
    assert OnePass(f.polled)
        == At(|f.polled|, [], SEGMENT_OPEN, CoreOf(m, Account(AllFrames(m, a), [], b.lastTimecode)));
  }

  /**
   For any attempts at registering tracks and any run of pushes, flushes and polls that ends in a flush and a poll, the
   polled bytes, fed to the reader in any chunks, give back exactly the accepted frames in order, laces expanded and
   each at the timecode its Cluster tells, the registered tracks, and the timecode scale; and they are a well-nested
   stream with no unread byte at its end.
   */
  lemma {:induction false} RoundTrip(
    scale: nat, batch: nat, attempts: seq<TrackInfo>, ops: seq<Op>, chunks: seq<seq<Byte>>)
    requires scale < U64_LIMIT
    requires forall i | 0 <= i < |attempts| :: TrackFields(attempts[i])
    requires Concat(chunks) == Finished(Registering(scale, batch, attempts), ops).polled
    requires |Concat(chunks)| < DELTA_LIMIT
    ensures var m, d := Registering(scale, batch, attempts), PushAll(chunks);
            && Finished(m, ops).pending == []
            && WellNested(Concat(chunks))
            && d.rest == [] && !d.halted
            && d.core.frames == ExpectedAll(Begin(m), ops)
            && d.core.tracks == DemuxedAll(m.tracks)
            && d.core.timecodeScale == m.scale
            && d.core.cues == [] && d.core.seekHead == []
  {
    hide Run, OnePass, CloseCluster, AllFrames, Accounts, Begin, PushAll, Expected, DemuxedAll;
    var m := Registering(scale, batch, attempts);
    RegisteredFields(scale, batch, attempts);
    var last := ApplyAll(Begin(m), ops);
    BegunKeeps(m);
    RunTidy(Begin(m), ops);
    ApplyGrows(last, Flush);
    ApplyGrows(Apply(last, Flush), Poll);
    FlushEmpties(last);
    var a := RunAccounts(m, ops);
    FinishedWritten(last, a);
    ChunkingInvariance(chunks);
  }

  lemma FlushEmpties(m: MuxState)
    ensures var f := Apply(Apply(m, Flush), Poll); Size(f) == |f.polled|
  {
  }

  // ---- Timecodes ----

  /** A timecode survives exactly when its Cluster's base is not negative and the distance from it does not overflow. */
  lemma TimeKept(base: I64, timecode: I64)
    requires Fits16(Since(timecode, base))
    ensures TimeRead(base, timecode) == timecode <==> base >= 0 && timecode - base >= -I64_LIMIT
  {
  }

  /** The frames as they were pushed. */
  function Pushed(tracks: seq<TrackInfo>, op: Op): seq<Frame>
  {
    if Refusal(tracks, op).Some? then []
    else match op
      case PushFrame(track, timecode, key, payload) => FramesAt(track, timecode, key, [payload])
      case PushLaced(track, timecode, key, payloads) => FramesAt(track, timecode, key, payloads)
      case _ => []
  }

  function PushedAll(tracks: seq<TrackInfo>, ops: seq<Op>): seq<Frame>
  {
    if ops == [] then [] else PushedAll(tracks, ops[..|ops| - 1]) + Pushed(tracks, ops[|ops| - 1])
  }

  /** If the push is accepted, its timecode and its track number survive. */
  predicate Survives(m: MuxState, op: Op)
  {
    Refusal(m.tracks, op).None? && (op.PushFrame? || op.PushLaced?) ==>
      && op.track <= MAX_SIZE
      && BaseFor(m, op.timecode) >= 0 && op.timecode - BaseFor(m, op.timecode) >= -I64_LIMIT
  }

  predicate AllSurvive(m: MuxState, ops: seq<Op>)
  {
    ops == [] || (AllSurvive(m, ops[..|ops| - 1]) && Survives(ApplyAll(m, ops[..|ops| - 1]), ops[|ops| - 1]))
  }

  lemma SameFrames(track: nat, other: nat, t: I64, u: I64, key: bool, payloads: seq<seq<Byte>>)
    requires payloads != []
    ensures FramesAt(track, t, key, payloads) == FramesAt(other, u, key, payloads) <==> track == other && t == u
    ensures |FramesAt(track, t, key, payloads)| == |FramesAt(other, u, key, payloads)|
  {
    var a, b := FramesAt(track, t, key, payloads)[0], FramesAt(other, u, key, payloads)[0];
    assert a.timecode == t && b.timecode == u && a.trackNumber == track && b.trackNumber == other;
  }

  lemma {:induction false} PushKept(m: MuxState, op: Op)
    ensures |Expected(m, op)| == |Pushed(m.tracks, op)|
    ensures Expected(m, op) == Pushed(m.tracks, op) <==> Survives(m, op)
  {
    hide OpenClusterFor, TimeRead, FramesAt;
    if Refusal(m.tracks, op).None? && (op.PushFrame? || op.PushLaced?) {
      var base := BaseFor(m, op.timecode);
      OpenedFits(m, op.timecode);
      TimeKept(base, op.timecode);
      var payloads := if op.PushFrame? then [op.payload] else op.payloads;
      SameFrames(TrackRead(op.track), op.track, TimeRead(base, op.timecode), op.timecode, op.isKeyframe, payloads);
    }
  }

  lemma {:induction false} RunTracks(m: MuxState, ops: seq<Op>)
    ensures ApplyAll(m, ops).tracks == m.tracks
    decreases |ops|
  {
    hide BlockElem, ClusterElem, Refusal, NeedsCluster, Writable;
    if ops != [] {
      RunTracks(m, ops[..|ops| - 1]);
    }
  }

  /** Over a whole run what is read back is what was pushed exactly when every accepted push survives. */
  lemma {:induction false} FramesKept(m: MuxState, ops: seq<Op>)
    ensures |ExpectedAll(m, ops)| == |PushedAll(m.tracks, ops)|
    ensures ExpectedAll(m, ops) == PushedAll(m.tracks, ops) <==> AllSurvive(m, ops)
    decreases |ops|
  {
    hide Expected, Pushed, Survives, ApplyAll;
    if ops != [] {
      var before, op := ops[..|ops| - 1], ops[|ops| - 1];
      var now := ApplyAll(m, before);
      FramesKept(m, before);
      RunTracks(m, before);
      PushKept(now, op);
      SameParts(ExpectedAll(m, before), Expected(now, op), PushedAll(m.tracks, before), Pushed(m.tracks, op));
    }
  }

  lemma SameParts(a: seq<Frame>, b: seq<Frame>, c: seq<Frame>, d: seq<Frame>)
    requires |a| == |c| && |b| == |d|
    ensures a + b == c + d <==> a == c && b == d
  {
    assert (a + b)[..|a|] == a && (a + b)[|a|..] == b;
    assert (c + d)[..|c|] == c && (c + d)[|c|..] == d;
  }

  predicate NotNegative(op: Op)
  {
    op.PushFrame? || op.PushLaced? ==> op.timecode >= 0
  }

  predicate SmallNumbers(tracks: seq<TrackInfo>)
  {
    forall i | 0 <= i < |tracks| :: tracks[i].trackNumber <= MAX_SIZE
  }

  lemma AcceptedTrack(tracks: seq<TrackInfo>, op: Op)
    requires SmallNumbers(tracks) && Refusal(tracks, op).None?
    ensures op.PushFrame? || op.PushLaced? ==> op.track <= MAX_SIZE
  {
  }

  /** Without negative timecodes and with track numbers that a VINT can tell, every push survives. */
  lemma {:induction false} NotNegativeSurvives(m: MuxState, ops: seq<Op>)
    requires m.clusterTimecode.None? && SmallNumbers(m.tracks) && forall i | 0 <= i < |ops| :: NotNegative(ops[i])
    ensures AllSurvive(m, ops)
    ensures var base := ApplyAll(m, ops).clusterTimecode; base.Some? ==> base.value >= 0
    decreases |ops|
  {
    hide BlockElem, ClusterElem, Refusal, NeedsCluster, Writable, SmallNumbers;
    if ops != [] {
      var before := ops[..|ops| - 1];
      NotNegativeSurvives(m, before);
      RunTracks(m, before);
      if Refusal(m.tracks, ops[|ops| - 1]).None? {
        AcceptedTrack(m.tracks, ops[|ops| - 1]);
      }
    }
  }

  /** The frames come back exactly as pushed if and only if every accepted push survives. */
  lemma {:induction false} FramesReturn(
    scale: nat, batch: nat, attempts: seq<TrackInfo>, ops: seq<Op>, chunks: seq<seq<Byte>>)
    requires scale < U64_LIMIT
    requires forall i | 0 <= i < |attempts| :: TrackFields(attempts[i])
    requires Concat(chunks) == Finished(Registering(scale, batch, attempts), ops).polled
    requires |Concat(chunks)| < DELTA_LIMIT
    ensures var m, frames := Registering(scale, batch, attempts), PushAll(chunks).core.frames;
            && (frames == PushedAll(m.tracks, ops) <==> AllSurvive(Begin(m), ops))
            && (SmallNumbers(m.tracks) && (forall i | 0 <= i < |ops| :: NotNegative(ops[i])) ==>
                  frames == PushedAll(m.tracks, ops))
  {
    hide PushAll, Finished, Registering, ExpectedAll, PushedAll, Begin, AllSurvive, SmallNumbers;
    RoundTrip(scale, batch, attempts, ops, chunks);
    RegisteredFields(scale, batch, attempts);
    var m := Registering(scale, batch, attempts);
    BegunKeeps(m);
    BegunClosed(m);
    FramesKept(Begin(m), ops);
    if SmallNumbers(m.tracks) && forall i | 0 <= i < |ops| :: NotNegative(ops[i]) {
      NotNegativeSurvives(Begin(m), ops);
    }
  }

  lemma BegunClosed(m: MuxState)
    ensures Begin(m).clusterTimecode == m.clusterTimecode
  {
  }

  /** A first frame at a negative timecode comes back at zero: its Cluster cannot tell a base before that. */
  lemma NegativeBaseIsLost(m: MuxState, track: nat, timecode: I64, key: bool, payload: seq<Byte>)
    requires m.clusterTimecode.None? && Registered(m.tracks, track) && timecode < 0
    ensures Expected(m, PushFrame(track, timecode, key, payload)) == [Frame(TrackRead(track), 0, key, None, payload)]
  {
  }
}
