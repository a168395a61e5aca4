/** What the reader makes of elements the writer never emits, from bytes built element by element. */
module WebmElements {
  import opened Bytes
  import opened Vint
  import opened Lacing
  import opened LacingModes
  import opened Ids
  import opened DemuxSpec
  import opened Chunking
  import opened MuxSpec
  import opened WebmRoundTrip

  // ---- Leaves in a row ----

  datatype LeafElement = LeafElement(id: nat, body: seq<Byte>)

  function LeavesBytes(leaves: seq<LeafElement>): seq<Byte>
  {
    if leaves == [] then []
    else LeavesBytes(leaves[..|leaves| - 1]) + Elem(leaves[|leaves| - 1].id, leaves[|leaves| - 1].body)
  }

  /** An element whose ID means nothing to the reader, and whose contents it does not look into. */
  predicate Foreign(id: nat)
  {
    && SelfDelimiting(id) && !IsDescendMaster(id) && !IsTrackLeaf(id) && !IsBlockLeaf(id)
    && id != TIMECODE_SCALE && id != CUE_TIME && id != CUE_CLUSTER_POSITION && id != SEEK_ID && id != SEEK_POSITION
  }

  /** An element the reader knows nothing of is passed over, wherever it stands. */
  lemma {:induction false} ForeignIsSkipped(
    pos: nat, stack: seq<OpenElement>, core: Core, id: nat, body: seq<Byte>, tail: seq<Byte>)
    requires Foreign(id) && |body| <= MAX_SIZE && Room(stack, pos, |Elem(id, body)|)
    ensures Run(At(pos, Elem(id, body) + tail, stack, core)) == Run(At(pos + |Elem(id, body)|, tail, stack, core))
  {
    hide Run, Elem;
    ReadLeaf(pos, stack, core, id, body, tail);
  }

  // ---- Block groups ----

  predicate GroupLeaf(e: LeafElement)
  {
    e.id == BLOCK || e.id == BLOCK_DURATION || e.id == REFERENCE_BLOCK || Foreign(e.id)
  }

  predicate GroupLeaves(leaves: seq<LeafElement>)
  {
    forall i | 0 <= i < |leaves| :: GroupLeaf(leaves[i])
  }

  /** The last Block that parses. */
  function LastBlock(leaves: seq<LeafElement>, clusterTimecode: I64): Option<ParsedBlock>
  {
    if leaves == [] then None
    else
      var last := leaves[|leaves| - 1];
      if last.id == BLOCK && ParseBlock(last.body, clusterTimecode).Some? then ParseBlock(last.body, clusterTimecode)
      else LastBlock(leaves[..|leaves| - 1], clusterTimecode)
  }

  /** What the last BlockDuration says; nothing when it is longer than eight bytes. */
  function LastDuration(leaves: seq<LeafElement>): Option<nat>
  {
    if leaves == [] then None
    else
      var last := leaves[|leaves| - 1];
      if last.id == BLOCK_DURATION then (if |last.body| <= 8 then Some(FromBigEndian(last.body)) else None)
      else LastDuration(leaves[..|leaves| - 1])
  }

  predicate HasReference(leaves: seq<LeafElement>)
  {
    exists i | 0 <= i < |leaves| :: leaves[i].id == REFERENCE_BLOCK
  }

  lemma HasReferenceSplits(leaves: seq<LeafElement>)
    requires leaves != []
    ensures HasReference(leaves)
            <==> HasReference(leaves[..|leaves| - 1]) || leaves[|leaves| - 1].id == REFERENCE_BLOCK
  {
    var front := leaves[..|leaves| - 1];
    if HasReference(front) {
      var i :| 0 <= i < |front| && front[i].id == REFERENCE_BLOCK;
      assert leaves[i].id == REFERENCE_BLOCK;
    }
    if HasReference(leaves) {
      var i :| 0 <= i < |leaves| && leaves[i].id == REFERENCE_BLOCK;
      assert i < |front| ==> front[i].id == REFERENCE_BLOCK;
    }
  }

  lemma GroupLeafRead(core: Core, top: Option<nat>, leaves: seq<LeafElement>)
    requires leaves != [] && GroupLeaves(leaves)
    requires var front := leaves[..|leaves| - 1];
             core.group == Some(GroupScratch(
               LastBlock(front, core.clusterTimecode), HasReference(front), LastDuration(front)))
    ensures var last := leaves[|leaves| - 1];
            HandleLeaf(core, top, last.id, last.body)
            == core.(group := Some(GroupScratch(
                 LastBlock(leaves, core.clusterTimecode), HasReference(leaves), LastDuration(leaves))))
  {
    hide ParseBlock, HasReference, FromBigEndian;
    assert GroupLeaf(leaves[|leaves| - 1]);
    HasReferenceSplits(leaves);
  }

  lemma {:induction false} ReadGroupLeaves(
    pos: nat, stack: seq<OpenElement>, core: Core, leaves: seq<LeafElement>, tail: seq<Byte>)
    requires GroupLeaves(leaves) && Room(stack, pos, |LeavesBytes(leaves)|) && |LeavesBytes(leaves)| <= MAX_SIZE
    requires core.group == Some(EMPTY_GROUP)
    ensures Run(At(pos, LeavesBytes(leaves) + tail, stack, core))
            == Run(At(pos + |LeavesBytes(leaves)|, tail, stack, core.(group := Some(GroupScratch(
                 LastBlock(leaves, core.clusterTimecode), HasReference(leaves), LastDuration(leaves))))))
    decreases |leaves|
  {
    hide Run, HandleLeaf, Elem, ParseBlock, LastBlock, LastDuration, HasReference, GroupLeaf;
    if leaves == [] {
      assert [] + tail == tail;
      NoLeaves(core.clusterTimecode);
    } else {
      var front, last := leaves[..|leaves| - 1], leaves[|leaves| - 1];
      var e := Elem(last.id, last.body);
      assert LeavesBytes(leaves) + tail == LeavesBytes(front) + (e + tail);
      ReadGroupLeaves(pos, stack, core, front, e + tail);
      var mid := core.(group := Some(GroupScratch(
        LastBlock(front, core.clusterTimecode), HasReference(front), LastDuration(front))));
      assert GroupLeaf(last);
      GroupLeafIsLeaf(last);
      ReadLeaf(pos + |LeavesBytes(front)|, stack, mid, last.id, last.body, tail);
      GroupLeafRead(mid, TopId(stack), leaves);
    }
  }

  lemma NoLeaves(clusterTimecode: I64)
    ensures LastBlock([], clusterTimecode) == None && LastDuration([]) == None && !HasReference([])
  {
  }

  lemma GroupLeafIsLeaf(e: LeafElement)
    requires GroupLeaf(e)
    ensures SelfDelimiting(e.id) && !IsDescendMaster(e.id) && |Elem(e.id, e.body)| > |e.body|
  {
  }

  function GroupElem(leaves: seq<LeafElement>): seq<Byte>
  {
    Elem(BLOCK_GROUP, LeavesBytes(leaves))
  }

  /** The frames of a group, one for each payload of its Block: key frames unless the group refers to another. */
  predicate FramesOfGroup(leaves: seq<LeafElement>, clusterTimecode: I64, frames: seq<Frame>)
  {
    match LastBlock(leaves, clusterTimecode)
    case None => frames == []
    case Some(b) =>
      && |frames| == |b.payloads|
      && forall i | 0 <= i < |frames| ::
           frames[i] == Frame(b.trackNumber, b.timecode, !HasReference(leaves), LastDuration(leaves), b.payloads[i])
  }

  /**
   A BlockGroup of any leaves in any order appends one frame for each payload of its last Block that parses, at that
   Block's track and timecode: a keyframe exactly when the group has no ReferenceBlock, with the duration its last
   BlockDuration says. Nothing else of what is understood changes.
   */
  lemma {:induction false} ReadBlockGroup(
    pos: nat, stack: seq<OpenElement>, core: Core, leaves: seq<LeafElement>, tail: seq<Byte>)
    returns (frames: seq<Frame>)
    requires GroupLeaves(leaves) && |LeavesBytes(leaves)| <= MAX_SIZE && stack != []
    requires Room(stack, pos, |GroupElem(leaves)|)
    ensures FramesOfGroup(leaves, core.clusterTimecode, frames)
    ensures Run(At(pos, GroupElem(leaves) + tail, stack, core))
            == Run(At(pos + |GroupElem(leaves)|, tail, stack, core.(group := None, frames := core.frames + frames)))
  {
    hide Run, Elem, LeavesBytes, HeaderLength, LastBlock, LastDuration, HasReference, GroupLeaves;
    var body := LeavesBytes(leaves);
    var end := pos + |GroupElem(leaves)|;
    ElemHeader(BLOCK_GROUP, body, []);
    OpenMaster(pos, stack, core, BLOCK_GROUP, body, tail);
    var inner := stack + [OpenElement(BLOCK_GROUP, Some(end))];
    var entered := core.(group := Some(EMPTY_GROUP));
    ReadGroupLeaves(pos + HeaderLength(BLOCK_GROUP, body), inner, entered, leaves, tail);
    var group := GroupScratch(LastBlock(leaves, core.clusterTimecode), HasReference(leaves), LastDuration(leaves));
    CloseMaster(end, stack, core.(group := Some(group)), BLOCK_GROUP, tail);
    frames := GroupFrames(group);
  }

  lemma {:induction false} OnlyBlock(leaves: seq<LeafElement>, clusterTimecode: I64, at: nat)
    requires at < |leaves| && forall i | 0 <= i < |leaves| :: leaves[i].id == BLOCK <==> i == at
    ensures LastBlock(leaves, clusterTimecode) == ParseBlock(leaves[at].body, clusterTimecode)
    decreases |leaves|
  {
    hide ParseBlock;
    var front := leaves[..|leaves| - 1];
    if at < |leaves| - 1 {
      OnlyBlock(front, clusterTimecode, at);
    } else {
      NoBlock(front, clusterTimecode);
    }
  }

  lemma {:induction false} NoBlock(leaves: seq<LeafElement>, clusterTimecode: I64)
    requires forall i | 0 <= i < |leaves| :: leaves[i].id != BLOCK
    ensures LastBlock(leaves, clusterTimecode) == None
  {
    hide ParseBlock;
    if leaves != [] {
      NoBlock(leaves[..|leaves| - 1], clusterTimecode);
    }
  }

  /** The duration said, when at most one leaf says one. */
  lemma {:induction false} OnlyDuration(leaves: seq<LeafElement>, ticks: nat)
    requires ticks < U64_LIMIT
    ensures (forall i | 0 <= i < |leaves| :: leaves[i].id != BLOCK_DURATION) ==> LastDuration(leaves) == None
    ensures (forall i | 0 <= i < |leaves| && leaves[i].id == BLOCK_DURATION :: leaves[i].body == UintBody(ticks))
            && (exists i | 0 <= i < |leaves| :: leaves[i].id == BLOCK_DURATION)
            ==> LastDuration(leaves) == Some(ticks)
    decreases |leaves|
  {
    hide UintBody, FromBigEndian;
    if leaves != [] {
      var front, last := leaves[..|leaves| - 1], leaves[|leaves| - 1];
      OnlyDuration(front, ticks);
      UintRoundTrip(ticks);
      if last.id != BLOCK_DURATION && exists i | 0 <= i < |leaves| :: leaves[i].id == BLOCK_DURATION {
        var i :| 0 <= i < |leaves| && leaves[i].id == BLOCK_DURATION;
        assert front[i].id == BLOCK_DURATION;
      }
    }
  }

  /** A group of one Block, any ReferenceBlocks and at most one BlockDuration, as its writer would have it read. */
  lemma {:induction false} ReadWrittenGroup(
    pos: nat, stack: seq<OpenElement>, core: Core, leaves: seq<LeafElement>, at: nat, b: Block,
    duration: Option<nat>, tail: seq<Byte>)
    returns (frames: seq<Frame>)
    requires GroupLeaves(leaves) && |LeavesBytes(leaves)| <= MAX_SIZE && stack != []
    requires Room(stack, pos, |GroupElem(leaves)|)
    requires at < |leaves| && forall i | 0 <= i < |leaves| :: leaves[i].id == BLOCK <==> i == at
    requires Readable(b) && leaves[at].body == BlockBody(b)
    requires duration.Some? ==>
               duration.value < U64_LIMIT && exists i | 0 <= i < |leaves| :: leaves[i].id == BLOCK_DURATION
    requires forall i | 0 <= i < |leaves| && leaves[i].id == BLOCK_DURATION ::
               duration.Some? && leaves[i].body == UintBody(duration.value)
    ensures |frames| == |b.payloads|
    ensures forall i | 0 <= i < |frames| ::
              frames[i] == Frame(if b.track <= MAX_SIZE then b.track else MAX_SIZE,
                                 Clamp(core.clusterTimecode + b.relative, -I64_LIMIT, I64_LIMIT - 1),
                                 forall k | 0 <= k < |leaves| :: leaves[k].id != REFERENCE_BLOCK, duration,
                                 b.payloads[i])
    ensures Run(At(pos, GroupElem(leaves) + tail, stack, core))
            == Run(At(pos + |GroupElem(leaves)|, tail, stack, core.(group := None, frames := core.frames + frames)))
  {
    hide Run, Elem, LeavesBytes, LastBlock, LastDuration, GroupLeaves, UintBody, BlockBody, ParseBlock;
    frames := ReadBlockGroup(pos, stack, core, leaves, tail);
    OnlyBlock(leaves, core.clusterTimecode, at);
    BlockParses(b, core.clusterTimecode);
    OnlyDuration(leaves, GetOr(duration, 0));
  }

  // ---- Cue points ----

  function MaybeUint(id: nat, v: Option<nat>): seq<Byte>
  {
    match v case None => [] case Some(n) => UintElem(id, n)
  }

  function PositionsElem(position: Option<nat>): seq<Byte>
  {
    Elem(CUE_TRACK_POSITIONS, MaybeUint(CUE_CLUSTER_POSITION, position))
  }

  function CueElem(time: Option<nat>, position: Option<nat>): seq<Byte>
  {
    Elem(CUE_POINT, MaybeUint(CUE_TIME, time) + PositionsElem(position))
  }

  predicate Fits64(v: Option<nat>)
  {
    v.Some? ==> v.value < U64_LIMIT
  }

  lemma MaybeShort(id: nat, v: Option<nat>)
    requires SelfDelimiting(id)
    ensures |MaybeUint(id, v)| <= 20
  {
    hide UintBody;
    if v.Some? {
      var body := UintBody(v.value);
      SizeBytesShort(|body|);
      ElemHeader(id, body, []);
      IdRoundTrip(id, []);
    }
  }

  lemma SizeBytesShort(n: nat)
    ensures |SizeBytes(n)| <= 8
  {
  }

  lemma ShortElem(id: nat, body: seq<Byte>)
    requires SelfDelimiting(id) && |body| <= 60
    ensures |body| < |Elem(id, body)| <= |body| + 12
  {
    hide SizeBytes;
    SizeBytesShort(|body|);
    IdRoundTrip(id, []);
  }

  /** An optional unsigned leaf, read or passed over as its value is there or not. */
  lemma ReadMaybe(
    pos: nat, stack: seq<OpenElement>, core: Core, after: Core, id: nat, v: Option<nat>, tail: seq<Byte>)
    requires SelfDelimiting(id) && !IsDescendMaster(id) && Fits64(v) && Room(stack, pos, |MaybeUint(id, v)|)
    requires after == if v.None? then core else HandleLeaf(core, TopId(stack), id, UintBody(v.value))
    ensures Run(At(pos, MaybeUint(id, v) + tail, stack, core)) == Run(At(pos + |MaybeUint(id, v)|, tail, stack, after))
  {
    hide Run, HandleLeaf, UintBody, SelfDelimiting;
    if v.Some? {
      ReadLeaf(pos, stack, core, id, UintBody(v.value), tail);
    } else {
      assert [] + tail == tail;
    }
  }

  lemma CueLeafRead(core: Core, c: CueScratch, v: nat)
    requires core.cue == Some(c) && v < U64_LIMIT
    ensures HandleLeaf(core, Some(CUE_POINT), CUE_TIME, UintBody(v)) == core.(cue := Some(c.(timeTicks := Some(v))))
    ensures HandleLeaf(core, Some(CUE_TRACK_POSITIONS), CUE_CLUSTER_POSITION, UintBody(v))
            == core.(cue := Some(c.(clusterPosition := Some(v))))
  {
    hide UintBody, ReadUint;
    UintRoundTrip(v);
  }

  lemma ReadPositions(
    pos: nat, stack: seq<OpenElement>, core: Core, c: CueScratch, position: Option<nat>, tail: seq<Byte>)
    requires Fits64(position) && stack != [] && Room(stack, pos, |PositionsElem(position)|)
    requires core.cue == Some(c) && c.clusterPosition.None?
    ensures Run(At(pos, PositionsElem(position) + tail, stack, core))
            == Run(At(pos + |PositionsElem(position)|, tail, stack,
                      core.(cue := Some(c.(clusterPosition := position)))))
  {
    hide Run, Elem, UintBody, HeaderLength, MaybeUint, HandleLeaf;
    var body := MaybeUint(CUE_CLUSTER_POSITION, position);
    var end := pos + |PositionsElem(position)|;
    var inner := stack + [OpenElement(CUE_TRACK_POSITIONS, Some(end))];
    var after := core.(cue := Some(c.(clusterPosition := position)));
    MaybeShort(CUE_CLUSTER_POSITION, position);
    ElemHeader(CUE_TRACK_POSITIONS, body, []);
    OpenMaster(pos, stack, core, CUE_TRACK_POSITIONS, body, tail);
    if position.Some? {
      CueLeafRead(core, c, position.value);
    }
    ReadMaybe(pos + HeaderLength(CUE_TRACK_POSITIONS, body), inner, core, after, CUE_CLUSTER_POSITION, position, tail);
    CloseMaster(end, stack, after, CUE_TRACK_POSITIONS, tail);
  }

  /** A CuePoint with both a time and a Cluster position gives one cue of them; one that lacks either gives none. */
  lemma {:induction false} ReadCuePoint(
    pos: nat, stack: seq<OpenElement>, core: Core, time: Option<nat>, position: Option<nat>, tail: seq<Byte>)
    requires Fits64(time) && Fits64(position) && stack != [] && Room(stack, pos, |CueElem(time, position)|)
    requires !TopUnknownCluster(stack)
    ensures Run(At(pos, CueElem(time, position) + tail, stack, core))
            == Run(At(pos + |CueElem(time, position)|, tail, stack, core.(
                 cue := None,
                 cues := core.cues + if time.Some? && position.Some?
                                     then [CuePoint(time.value, position.value)] else [])))
  {
    hide Run, Elem, UintBody, HeaderLength, MaybeUint, PositionsElem, HandleLeaf;
    var first, second := MaybeUint(CUE_TIME, time), PositionsElem(position);
    var body, end := first + second, pos + |CueElem(time, position)|;
    var inner := stack + [OpenElement(CUE_POINT, Some(end))];
    var p0 := pos + HeaderLength(CUE_POINT, body);
    CueShort(time, position);
    ElemHeader(CUE_POINT, body, []);
    OpenMaster(pos, stack, core, CUE_POINT, body, tail);
    var core0, c1 := core.(cue := Some(CueScratch(None, None))), CueScratch(time, None);
    var core1 := core.(cue := Some(c1));
    if time.Some? {
      CueLeafRead(core0, CueScratch(None, None), time.value);
    }
    assert body + tail == first + (second + tail);
    ReadMaybe(p0, inner, core0, core1, CUE_TIME, time, second + tail);
    ReadPositions(p0 + |first|, inner, core1, c1, position, tail);
    CloseMaster(end, stack, core.(cue := Some(CueScratch(time, position))), CUE_POINT, tail);
    assert core.cues + [] == core.cues;
  }

  lemma CueShort(time: Option<nat>, position: Option<nat>)
    ensures |MaybeUint(CUE_TIME, time) + PositionsElem(position)| <= 60
  {
    hide MaybeUint, Elem;
    MaybeShort(CUE_TIME, time);
    MaybeShort(CUE_CLUSTER_POSITION, position);
    ShortElem(CUE_TRACK_POSITIONS, MaybeUint(CUE_CLUSTER_POSITION, position));
  }

  // ---- Seek entries ----

  function SeekElem(id: Option<nat>, position: Option<nat>): seq<Byte>
  {
    Elem(SEEK, MaybeUint(SEEK_ID, id) + MaybeUint(SEEK_POSITION, position))
  }

  lemma SeekLeafRead(core: Core, k: SeekScratch, v: nat)
    requires core.seek == Some(k) && v < U64_LIMIT
    ensures HandleLeaf(core, Some(SEEK), SEEK_ID, UintBody(v))
            == core.(seek := Some(k.(id := Some(v % 0x1_0000_0000))))
    ensures HandleLeaf(core, Some(SEEK), SEEK_POSITION, UintBody(v)) == core.(seek := Some(k.(position := Some(v))))
  {
    hide UintBody, ReadUint;
    UintRoundTrip(v);
  }

  lemma SeekShort(id: Option<nat>, position: Option<nat>)
    ensures |MaybeUint(SEEK_ID, id) + MaybeUint(SEEK_POSITION, position)| <= 60
  {
    hide MaybeUint;
    MaybeShort(SEEK_ID, id);
    MaybeShort(SEEK_POSITION, position);
  }

  /** A Seek with both an ID and a position gives one entry, the ID cut to 32 bits; one that lacks either gives none. */
  lemma {:induction false} ReadSeek(
    pos: nat, stack: seq<OpenElement>, core: Core, id: Option<nat>, position: Option<nat>, tail: seq<Byte>)
    requires Fits64(id) && Fits64(position) && stack != [] && Room(stack, pos, |SeekElem(id, position)|)
    requires !TopUnknownCluster(stack)
    ensures Run(At(pos, SeekElem(id, position) + tail, stack, core))
            == Run(At(pos + |SeekElem(id, position)|, tail, stack, core.(
                 seek := None,
                 seekHead := core.seekHead + if id.Some? && position.Some?
                                             then [SeekEntry(id.value % 0x1_0000_0000, position.value)] else [])))
  {
    hide Run, Elem, UintBody, HeaderLength, MaybeUint, HandleLeaf;
    var first, second := MaybeUint(SEEK_ID, id), MaybeUint(SEEK_POSITION, position);
    var body, end := first + second, pos + |SeekElem(id, position)|;
    var inner := stack + [OpenElement(SEEK, Some(end))];
    var p0 := pos + HeaderLength(SEEK, body);
    SeekShort(id, position);
    ElemHeader(SEEK, body, []);
    OpenMaster(pos, stack, core, SEEK, body, tail);
    var k0 := SeekScratch(None, None);
    var k1 := SeekScratch(if id.Some? then Some(id.value % 0x1_0000_0000) else None, None);
    if id.Some? {
      SeekLeafRead(core.(seek := Some(k0)), k0, id.value);
    }
    assert body + tail == first + (second + tail);
    ReadMaybe(p0, inner, core.(seek := Some(k0)), core.(seek := Some(k1)), SEEK_ID, id, second + tail);
    var k2 := k1.(position := position);
    if position.Some? {
      SeekLeafRead(core.(seek := Some(k1)), k1, position.value);
    }
    ReadMaybe(p0 + |first|, inner, core.(seek := Some(k1)), core.(seek := Some(k2)), SEEK_POSITION, position, tail);
    CloseMaster(end, stack, core.(seek := Some(k2)), SEEK, tail);
    assert core.seekHead + [] == core.seekHead;
  }

  // ---- Track entries with fields missing ----

  function BareTrackBody(number: Option<nat>, codec: Option<seq<Byte>>): seq<Byte>
  {
    MaybeUint(TRACK_NUMBER, number) + match codec case None => [] case Some(c) => Elem(CODEC_ID, c)
  }

  /** A track entry without a number or without a codec ID is dropped; every other field has a default. */
  lemma {:induction false} ReadBareTrack(
    pos: nat, stack: seq<OpenElement>, core: Core, number: Option<nat>, codec: Option<seq<Byte>>, tail: seq<Byte>)
    requires Fits64(number) && |BareTrackBody(number, codec)| <= MAX_SIZE && stack != [] && !TopUnknownCluster(stack)
    requires Room(stack, pos, |Elem(TRACK_ENTRY, BareTrackBody(number, codec))|)
    ensures var e := Elem(TRACK_ENTRY, BareTrackBody(number, codec));
            Run(At(pos, e + tail, stack, core))
            == Run(At(pos + |e|, tail, stack, core.(
                 track := None,
                 tracks := core.tracks + if number.None? || codec.None? then []
                   else [TrackInfo(number.value, 0, codec.value, None, 0, 0, [0x40, 0xBF, 0x40, 0, 0, 0, 0, 0], 1)])))
  {
    hide Run, Elem, UintBody, HeaderLength, MaybeUint, HandleLeaf;
    var first := MaybeUint(TRACK_NUMBER, number);
    var second := match codec case None => [] case Some(c) => Elem(CODEC_ID, c);
    var body := BareTrackBody(number, codec);
    var end := pos + |Elem(TRACK_ENTRY, body)|;
    var inner := stack + [OpenElement(TRACK_ENTRY, Some(end))];
    var p0 := pos + HeaderLength(TRACK_ENTRY, body);
    ElemHeader(TRACK_ENTRY, body, []);
    OpenMaster(pos, stack, core, TRACK_ENTRY, body, tail);
    var t1 := EMPTY_TRACK.(trackNumber := number);
    var t2 := t1.(codecId := codec);
    var core0, core1, core2 := core.(track := Some(EMPTY_TRACK)), core.(track := Some(t1)), core.(track := Some(t2));
    if number.Some? {
      BareNumber(core0, number.value);
    }
    assert body + tail == first + (second + tail);
    ReadMaybe(p0, inner, core0, core1, TRACK_NUMBER, number, second + tail);
    if codec.Some? {
      BareCodec(core1, t1, codec.value);
      ReadLeaf(p0 + |first|, inner, core1, CODEC_ID, codec.value, tail);
    } else {
      assert [] + tail == tail;
    }
    CloseMaster(end, stack, core2, TRACK_ENTRY, tail);
    assert core.tracks + [] == core.tracks;
  }

  lemma BareNumber(core: Core, v: nat)
    requires core.track == Some(EMPTY_TRACK) && v < U64_LIMIT
    ensures HandleLeaf(core, Some(TRACK_ENTRY), TRACK_NUMBER, UintBody(v))
            == core.(track := Some(EMPTY_TRACK.(trackNumber := Some(v))))
  {
    hide UintBody, ReadUint;
    UintRoundTrip(v);
  }

  lemma BareCodec(core: Core, t: TrackScratch, codec: seq<Byte>)
    requires core.track == Some(t)
    ensures HandleLeaf(core, Some(TRACK_ENTRY), CODEC_ID, codec) == core.(track := Some(t.(codecId := Some(codec))))
  {
  }

  // ---- Where the reader stops ----

  /** A leaf of unknown size has no end to be found: the reader halts before it, and what it understood stays. */
  lemma {:induction false} UnknownLeafHalts(
    pos: nat, stack: seq<OpenElement>, core: Core, id: nat, width: nat, tail: seq<Byte>)
    requires SelfDelimiting(id) && !IsDescendMaster(id) && 1 <= width <= 8 && !TopFinished(stack, pos)
    ensures var s := At(pos, IdBytes(id) + UnknownBytes(width) + tail, stack, core);
            Run(s) == s.(halted := true)
  {
    hide IdBytes, UnknownBytes, IdAt, SizeAt, HandleLeaf, SelfDelimiting, IsDescendMaster;
    var s := At(pos, IdBytes(id) + UnknownBytes(width) + tail, stack, core);
    assert s.rest == IdBytes(id) + (UnknownBytes(width) + tail);
    SegmentLevelIsMaster(id);
    IdWithin(id);
    IdRoundTrip(id, UnknownBytes(width) + tail);
    assert s.rest[|IdBytes(id)|..] == UnknownBytes(width) + tail;
    UnknownDecodes(width, tail);
    assert CloseFinished(s) == s && CloseBeforeSibling(s, id) == s;
    assert ReadHeader(s.rest).Complete? && ReadHeader(s.rest).size == None;
  }

  lemma SegmentLevelIsMaster(id: nat)
    requires !IsDescendMaster(id)
    ensures !IsSegmentLevelChild(id)
  {
  }

  lemma IdWithin(id: nat)
    requires SelfDelimiting(id)
    ensures id < 0x1_0000_0000
  {
  }

  /** A byte below 16 where an ID should begin is no ID of at most four bytes: the reader halts there. */
  lemma {:induction false} BadIdHalts(pos: nat, stack: seq<OpenElement>, core: Core, rest: seq<Byte>)
    requires rest != [] && rest[0] < 16 && !TopFinished(stack, pos)
    ensures Run(At(pos, rest, stack, core)) == At(pos, rest, stack, core).(halted := true)
  {
    hide HandleLeaf, OnOpen;
    var s := At(pos, rest, stack, core);
    assert CloseFinished(s) == s;
    assert ReadHeader(rest) == BadId;
  }

  /** So does it at a size that begins with a zero byte, unless the ID first ends unknown-size Clusters. */
  lemma {:induction false} BadSizeHalts(pos: nat, stack: seq<OpenElement>, core: Core, id: nat, tail: seq<Byte>)
    requires SelfDelimiting(id) && !TopFinished(stack, pos) && !(TopUnknownCluster(stack) && IsSegmentLevelChild(id))
    ensures var s := At(pos, IdBytes(id) + [0] + tail, stack, core); Run(s) == s.(halted := true)
  {
    hide IdBytes, IdAt, HandleLeaf, SelfDelimiting, IsDescendMaster, IsSegmentLevelChild;
    var s := At(pos, IdBytes(id) + [0] + tail, stack, core);
    assert s.rest == IdBytes(id) + ([0] + tail);
    IdWithin(id);
    IdRoundTrip(id, [0] + tail);
    assert s.rest[|IdBytes(id)|..] == [0] + tail;
    SizeErrors([0] + tail, 1);
    assert CloseFinished(s) == s && CloseBeforeSibling(s, id) == s;
    assert ReadHeader(s.rest) == BadSize(id);
  }

  // ---- Blocks of any lacing ----

  /** A block whose payloads are laced in any mode parses to them, at its own distance from the Cluster. */
  lemma {:induction false} LacedBlockParses(
    track: nat, relative: int, flags: Byte, laced: seq<Byte>, payloads: seq<seq<Byte>>, base: I64)
    requires track <= MAX_SIZE && Fits16(relative)
    requires var head := SizeBytes(track) + SignedPairBytes(relative) + [flags];
             SubFrames(head + laced, |head|, FromFlags(flags)) == Some(payloads)
    ensures ParseBlock(SizeBytes(track) + SignedPairBytes(relative) + [flags] + laced, base)
            == Some(ParsedBlock(track, Clamp(base + relative, -I64_LIMIT, I64_LIMIT - 1), flags, payloads))
  {
    hide SizeBytes, SizeAt, SubFrames, FromFlags;
    var pair, n := SignedPairBytes(relative), |SizeBytes(track)|;
    var body := SizeBytes(track) + pair + [flags] + laced;
    assert body == SizeBytes(track) + (pair + [flags] + laced);
    SizeRoundTrip(track, pair + [flags] + laced);
    assert body[n] == pair[0] && body[n + 1] == pair[1] && body[n + 2] == flags;
  }

  lemma {:induction false} XiphBlockParses(
    track: nat, relative: int, key: bool, payloads: seq<seq<Byte>>, base: I64)
    requires track <= MAX_SIZE && Fits16(relative) && 2 <= |payloads| <= 256
    ensures var flags: Byte := (if key then 0x80 else 0) + 2;
            ParseBlock(SizeBytes(track) + SignedPairBytes(relative) + [flags] + XiphBody(payloads), base)
            == Some(ParsedBlock(track, Clamp(base + relative, -I64_LIMIT, I64_LIMIT - 1), flags, payloads))
  {
    hide SizeBytes, SplitRanges, XiphBody, Slices, ParseBlock;
    var flags: Byte := (if key then 0x80 else 0) + 2;
    var head := SizeBytes(track) + SignedPairBytes(relative) + [flags];
    XiphInverts(head, payloads);
    ModeOfFlags(flags);
    LacedBlockParses(track, relative, flags, XiphBody(payloads), payloads, base);
  }

  /** A written block's body: track, relative timecode in two's complement, key flag and lacing bits alone, payload. */
  lemma {:induction false} BlockLaidOut(b: Block)
    requires Writable(b)
    ensures var s, n := BlockBody(b), |SizeBytes(b.track)|;
            && |s| >= n + 3 && s[..n] == SizeBytes(b.track)
            && s[n] as int * 256 + s[n + 1] as int == (b.relative + 0x1_0000) % 0x1_0000
            && s[n + 2] == (if b.isKeyframe then 0x80 else 0) + (if |b.payloads| == 1 then 0 else 6)
            && (|b.payloads| == 1 ==> s[n + 3..] == b.payloads[0])
  {
    hide SizeBytes, LacedBody;
  }

  // ---- Values ----

  /** Where a leaf's value is of use; elsewhere it is passed over. */
  predicate InPlace(id: nat, top: Option<nat>)
  {
    && ((id == PIXEL_WIDTH || id == PIXEL_HEIGHT) ==> top == Some(VIDEO))
    && ((id == SAMPLING_FREQUENCY || id == CHANNELS) ==> top == Some(AUDIO))
    && (id == CUE_TIME ==> top == Some(CUE_POINT))
    && (id == CUE_CLUSTER_POSITION ==> top == Some(CUE_TRACK_POSITIONS))
    && ((id == SEEK_ID || id == SEEK_POSITION) ==> top == Some(SEEK))
  }

  /** What must be open, anywhere above, for a leaf to have an effect. */
  predicate HasOwner(core: Core, id: nat)
  {
    && (IsTrackLeaf(id) ==> core.track.Some?)
    && (id == BLOCK || id == BLOCK_DURATION || id == REFERENCE_BLOCK ==> core.group.Some?)
    && (id == CUE_TIME || id == CUE_CLUSTER_POSITION ==> core.cue.Some?)
    && (id == SEEK_ID || id == SEEK_POSITION ==> core.seek.Some?)
  }

  /** A leaf in the wrong parent, or under no element that could own it, changes nothing. */
  lemma {:induction false} MisplacedIsSkipped(
    pos: nat, stack: seq<OpenElement>, core: Core, id: nat, body: seq<Byte>, tail: seq<Byte>)
    requires SelfDelimiting(id) && !IsDescendMaster(id) && |body| <= MAX_SIZE && Room(stack, pos, |Elem(id, body)|)
    requires !InPlace(id, TopId(stack)) || !HasOwner(core, id)
    ensures Run(At(pos, Elem(id, body) + tail, stack, core)) == Run(At(pos + |Elem(id, body)|, tail, stack, core))
  {
    hide Run, Elem, ParseBlock;
    ReadLeaf(pos, stack, core, id, body, tail);
    MisplacedChangesNothing(core, TopId(stack), id, body);
  }

  lemma MisplacedChangesNothing(core: Core, top: Option<nat>, id: nat, body: seq<Byte>)
    requires !InPlace(id, top) || !HasOwner(core, id)
    ensures HandleLeaf(core, top, id, body) == core
  {
    hide ParseBlock, ReadUint;
  }

  /** Fields keep the low bits they have room for: 8 of a track type, 32 of sizes and channels, 64 of a timecode. */
  lemma {:induction false} FieldWidths(core: Core, t: TrackScratch, v: nat)
    requires core.track == Some(t) && v < U64_LIMIT
    ensures forall top :: HandleLeaf(core, top, TRACK_TYPE, UintBody(v))
                          == core.(track := Some(t.(trackType := Some(v % 0x100))))
    ensures HandleLeaf(core, Some(VIDEO), PIXEL_WIDTH, UintBody(v))
            == core.(track := Some(t.(width := v % 0x1_0000_0000)))
    ensures HandleLeaf(core, Some(VIDEO), PIXEL_HEIGHT, UintBody(v))
            == core.(track := Some(t.(height := v % 0x1_0000_0000)))
    ensures HandleLeaf(core, Some(AUDIO), CHANNELS, UintBody(v))
            == core.(track := Some(t.(channels := Some(v % 0x1_0000_0000))))
    ensures forall top :: HandleLeaf(core, top, TIMECODE, UintBody(v))
                          == core.(clusterTimecode := if v < I64_LIMIT then v else v - U64_LIMIT)
    ensures forall top :: HandleLeaf(core, top, TIMECODE_SCALE, UintBody(v))
                          == core.(timecodeScale := if v == 0 then 1 else v)
  {
    hide UintBody, ReadUint;
    UintRoundTrip(v);
  }

  /** A sample rate is four or eight bytes, taken as they are; of any other length it is passed over. */
  lemma {:induction false} SampleRateTaken(core: Core, t: TrackScratch, body: seq<Byte>)
    requires core.track == Some(t)
    ensures HandleLeaf(core, Some(AUDIO), SAMPLING_FREQUENCY, body)
            == if |body| == 4 || |body| == 8 then core.(track := Some(t.(sampleRate := Some(body)))) else core
  {
  }

  /** A number of more than eight bytes is no number. */
  lemma {:induction false} LongNumberIgnored(core: Core, top: Option<nat>, id: nat, body: seq<Byte>)
    requires |body| > 8
    requires id in {TRACK_NUMBER, TRACK_TYPE, PIXEL_WIDTH, PIXEL_HEIGHT, CHANNELS, TIMECODE, TIMECODE_SCALE, SEEK_ID}
    ensures HandleLeaf(core, top, id, body) == core
  {
    hide ParseBlock;
  }
}
