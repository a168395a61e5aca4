/**
 The reader as a pure machine over the bytes not yet read. Positions and element ends count from the start of the
 stream; `base` is how much of the stream the buffer has already dropped.
 */
module DemuxSpec {
  import opened Bytes
  import opened Vint
  import opened Lacing
  import opened Ids

  datatype TrackInfo = TrackInfo(
    trackNumber: nat, trackType: nat, codecId: seq<Byte>, codecPrivate: Option<seq<Byte>>,
    width: nat, height: nat, sampleRate: seq<Byte>, channels: nat)

  datatype Frame = Frame(
    trackNumber: nat, timecode: int, isKeyframe: bool, durationTicks: Option<nat>, payload: seq<Byte>)

  datatype CuePoint = CuePoint(timeTicks: nat, clusterPosition: nat)

  datatype SeekEntry = SeekEntry(id: nat, position: nat)

  datatype TrackScratch = TrackScratch(
    trackNumber: Option<nat>, trackType: Option<nat>, codecId: Option<seq<Byte>>, codecPrivate: Option<seq<Byte>>,
    width: nat, height: nat, sampleRate: Option<seq<Byte>>, channels: Option<nat>)

  datatype ParsedBlock = ParsedBlock(trackNumber: nat, timecode: int, flags: Byte, payloads: seq<seq<Byte>>)

  datatype GroupScratch = GroupScratch(block: Option<ParsedBlock>, hasReference: bool, durationTicks: Option<nat>)

  datatype CueScratch = CueScratch(timeTicks: Option<nat>, clusterPosition: Option<nat>)

  datatype SeekScratch = SeekScratch(id: Option<nat>, position: Option<nat>)

  /** What the reader has understood so far. `frames` are all frames since the start, polled ones included. */
  datatype Core = Core(
    tracks: seq<TrackInfo>, track: Option<TrackScratch>, group: Option<GroupScratch>, cue: Option<CueScratch>,
    seek: Option<SeekScratch>, cues: seq<CuePoint>, seekHead: seq<SeekEntry>, timecodeScale: nat,
    clusterTimecode: I64, frames: seq<Frame>)

  datatype OpenElement = OpenElement(id: nat, end: Option<nat>)

  /** `nested` records whether every element opened so far lay inside the element it was opened in. */
  datatype State = State(
    base: nat, pos: nat, rest: seq<Byte>, stack: seq<OpenElement>, core: Core, halted: bool, nested: bool)

  const DEFAULT_TIMECODE_SCALE: nat := 1_000_000
  const EMPTY_TRACK := TrackScratch(None, None, None, None, 0, 0, None, None)
  const EMPTY_GROUP := GroupScratch(None, false, None)
  const EMPTY_CORE := Core([], None, None, None, None, [], [], DEFAULT_TIMECODE_SCALE, 0, [])
  const START := State(0, 0, [], [], EMPTY_CORE, false, true)

  /** 8000.0 as the eight bytes of an IEEE double; sample rates stay in their encoded form. */
  const DEFAULT_SAMPLE_RATE: seq<Byte> := [0x40, 0xBF, 0x40, 0, 0, 0, 0, 0]

  // ---- Values ----

  function ReadUint(body: seq<Byte>): Option<nat>
  {
    if |body| > 8 then None else Some(FromBigEndian(body))
  }

  /** Casts that keep the low bits. */
  function AsU8(v: nat): nat { v % 0x100 }

  function AsU32(v: nat): nat { v % 0x1_0000_0000 }

  function SignedPair(hi: Byte, lo: Byte): int
  {
    var v := hi as int * 256 + lo;
    if v < 0x8000 then v else v - 0x1_0000
  }

  /** The payloads a block's body splits into. */
  function SubFrames(body: seq<Byte>, start: nat, mode: Mode): Option<seq<seq<Byte>>>
  {
    match SplitRanges(body, start, mode)
    case None => None
    case Some(ranges) => SplitTiles(body, start, mode); Some(Slices(body, ranges))
  }

  /** A block's body: track number, signed 16-bit relative timecode, flags, laced payloads. */
  function ParseBlock(body: seq<Byte>, clusterTimecode: I64): Option<ParsedBlock>
  {
    match SizeAt(body)
    case Err(_) => None
    case Ok((track, n)) =>
      if |body| < n + 3 then None
      else match SubFrames(body, n + 3, FromFlags(body[n + 2]))
        case None => None
        case Some(payloads) =>
          Some(ParsedBlock(
            track.value, ClampI64(clusterTimecode + SignedPair(body[n], body[n + 1])), body[n + 2], payloads))
  }

  function BlockFrames(block: ParsedBlock, isKeyframe: bool, durationTicks: Option<nat>): (r: seq<Frame>)
    ensures |r| == |block.payloads|
  {
    seq(|block.payloads|, i requires 0 <= i < |block.payloads| =>
      Frame(block.trackNumber, block.timecode, isKeyframe, durationTicks, block.payloads[i]))
  }

  // ---- Elements ----

  function OnOpen(core: Core, id: nat): Core
  {
    if id == TRACK_ENTRY then core.(track := Some(EMPTY_TRACK))
    else if id == CLUSTER then core.(clusterTimecode := 0)
    else if id == BLOCK_GROUP then core.(group := Some(EMPTY_GROUP))
    else if id == CUE_POINT then core.(cue := Some(CueScratch(None, None)))
    else if id == SEEK then core.(seek := Some(SeekScratch(None, None)))
    else core
  }

  function FinishTrack(t: TrackScratch): Option<TrackInfo>
  {
    if t.trackNumber.None? || t.codecId.None? then None
    else Some(TrackInfo(
      t.trackNumber.value, GetOr(t.trackType, 0), t.codecId.value, t.codecPrivate, t.width, t.height,
      GetOr(t.sampleRate, DEFAULT_SAMPLE_RATE), GetOr(t.channels, 1)))
  }

  function GroupFrames(group: GroupScratch): seq<Frame>
  {
    match group.block
    case None => []
    case Some(block) => BlockFrames(block, !group.hasReference, group.durationTicks)
  }

  function OnClose(core: Core, id: nat): Core
  {
    if id == TRACK_ENTRY && core.track.Some? then
      match FinishTrack(core.track.value)
      case None => core.(track := None)
      case Some(info) => core.(track := None, tracks := core.tracks + [info])
    else if id == BLOCK_GROUP && core.group.Some? then
      core.(group := None, frames := core.frames + GroupFrames(core.group.value))
    else if id == CUE_POINT && core.cue.Some? then
      var c := core.cue.value;
      if c.timeTicks.Some? && c.clusterPosition.Some?
      then core.(cue := None, cues := core.cues + [CuePoint(c.timeTicks.value, c.clusterPosition.value)])
      else core.(cue := None)
    else if id == SEEK && core.seek.Some? then
      var k := core.seek.value;
      if k.id.Some? && k.position.Some?
      then core.(seek := None, seekHead := core.seekHead + [SeekEntry(k.id.value, k.position.value)])
      else core.(seek := None)
    else core
  }

  predicate IsTrackLeaf(id: nat)
  {
    || id == TRACK_NUMBER || id == TRACK_TYPE || id == CODEC_ID || id == CODEC_PRIVATE
    || id == PIXEL_WIDTH || id == PIXEL_HEIGHT || id == SAMPLING_FREQUENCY || id == CHANNELS
  }

  function TrackLeaf(t: TrackScratch, top: Option<nat>, id: nat, body: seq<Byte>): TrackScratch
  {
    var v := ReadUint(body);
    if id == CODEC_ID then t.(codecId := Some(body))
    else if id == CODEC_PRIVATE then t.(codecPrivate := Some(body))
    else if id == SAMPLING_FREQUENCY then
      if top == Some(AUDIO) && (|body| == 4 || |body| == 8) then t.(sampleRate := Some(body)) else t
    else if v.None? then t
    else if id == TRACK_NUMBER then t.(trackNumber := v)
    else if id == TRACK_TYPE then t.(trackType := Some(AsU8(v.value)))
    else if id == PIXEL_WIDTH && top == Some(VIDEO) then t.(width := AsU32(v.value))
    else if id == PIXEL_HEIGHT && top == Some(VIDEO) then t.(height := AsU32(v.value))
    else if id == CHANNELS && top == Some(AUDIO) then t.(channels := Some(AsU32(v.value)))
    else t
  }

  predicate IsBlockLeaf(id: nat)
  {
    id == TIMECODE || id == SIMPLE_BLOCK || id == BLOCK || id == BLOCK_DURATION || id == REFERENCE_BLOCK
  }

  function BlockLeaf(core: Core, id: nat, body: seq<Byte>): Core
  {
    if id == TIMECODE then
      match ReadUint(body) case None => core case Some(v) => core.(clusterTimecode := AsI64(v))
    else if id == SIMPLE_BLOCK then
      match ParseBlock(body, core.clusterTimecode)
      case None => core
      case Some(block) => core.(frames := core.frames + BlockFrames(block, block.flags >= 0x80, None))
    else if core.group.None? then core
    else if id == BLOCK then
      match ParseBlock(body, core.clusterTimecode)
      case None => core
      case Some(block) => core.(group := Some(core.group.value.(block := Some(block))))
    else if id == BLOCK_DURATION then
      core.(group := Some(core.group.value.(durationTicks := ReadUint(body))))
    else
      core.(group := Some(core.group.value.(hasReference := true)))
  }

  function IndexLeaf(core: Core, top: Option<nat>, id: nat, body: seq<Byte>): Core
  {
    var v := ReadUint(body);
    if id == TIMECODE_SCALE then
      match v case None => core case Some(scale) => core.(timecodeScale := if scale < 1 then 1 else scale)
    else if id == CUE_TIME && top == Some(CUE_POINT) && core.cue.Some? then
      core.(cue := Some(core.cue.value.(timeTicks := v)))
    else if id == CUE_CLUSTER_POSITION && top == Some(CUE_TRACK_POSITIONS) && core.cue.Some? then
      core.(cue := Some(core.cue.value.(clusterPosition := v)))
    else if id == SEEK_ID && top == Some(SEEK) && core.seek.Some? && v.Some? then
      core.(seek := Some(core.seek.value.(id := Some(AsU32(v.value)))))
    else if id == SEEK_POSITION && top == Some(SEEK) && core.seek.Some? then
      core.(seek := Some(core.seek.value.(position := v)))
    else core
  }

  /** What a complete non-master element does; `top` is the ID of the element it lies in. */
  function HandleLeaf(core: Core, top: Option<nat>, id: nat, body: seq<Byte>): Core
  {
    if IsTrackLeaf(id) then
      match core.track case None => core case Some(t) => core.(track := Some(TrackLeaf(t, top, id, body)))
    else if IsBlockLeaf(id) then BlockLeaf(core, id, body)
    else IndexLeaf(core, top, id, body)
  }

  // ---- The machine ----

  function Top(stack: seq<OpenElement>): OpenElement
    requires stack != []
  {
    stack[|stack| - 1]
  }

  function TopId(stack: seq<OpenElement>): Option<nat>
  {
    if stack == [] then None else Some(Top(stack).id)
  }

  function Pop(s: State): State
    requires s.stack != []
  {
    s.(stack := s.stack[..|s.stack| - 1], core := OnClose(s.core, Top(s.stack).id))
  }

  predicate TopFinished(stack: seq<OpenElement>, pos: nat)
  {
    stack != [] && Top(stack).end.Some? && pos >= Top(stack).end.value
  }

  function CloseFinished(s: State): State
    decreases |s.stack|
  {
    if TopFinished(s.stack, s.pos) then CloseFinished(Pop(s)) else s
  }

  predicate TopUnknownCluster(stack: seq<OpenElement>)
  {
    stack != [] && Top(stack) == OpenElement(CLUSTER, None)
  }

  /** A Segment-level ID ends the unknown-size Clusters on top of the stack. */
  function CloseBeforeSibling(s: State, id: nat): State
    decreases |s.stack|
  {
    if IsSegmentLevelChild(id) && TopUnknownCluster(s.stack) then CloseBeforeSibling(Pop(s), id) else s
  }

  /** What the bytes at the read position say about the next element: its ID, its size if known, the header's length. */
  datatype Header = NoId | BadId | IdOnly(id: nat) | BadSize(id: nat) | Complete(id: nat, size: Option<nat>, len: nat)

  function ReadHeader(rest: seq<Byte>): (h: Header)
    ensures h.Complete? ==> 2 <= h.len <= |rest|
  {
    match IdAt(rest)
    case Err(Incomplete) => NoId
    case Err(_) => BadId
    case Ok((id, n)) =>
      match SizeAt(rest[n..])
      case Err(Incomplete) => IdOnly(id)
      case Err(_) => BadSize(id)
      case Ok((size, m)) => Complete(id, if size.unknown then None else Some(size.value), n + m)
  }

  /** Known-size elements lie inside known-size ancestors; unknown-size elements have only unknown-size ancestors. */
  predicate Nests(stack: seq<OpenElement>, end: Option<nat>)
  {
    stack == [] || Top(stack).end.None? || (end.Some? && end.value <= Top(stack).end.value)
  }

  function Open(s: State, id: nat, size: Option<nat>, len: nat): State
    requires len <= |s.rest|
  {
    var end := match size case None => None case Some(n) => Some(s.pos + len + n);
    s.(pos := s.pos + len, rest := s.rest[len..], core := OnOpen(s.core, id),
       stack := s.stack + [OpenElement(id, end)], nested := s.nested && Nests(s.stack, end))
  }

  function Leaf(s: State, id: nat, size: nat, len: nat): State
    requires len + size <= |s.rest|
  {
    s.(pos := s.pos + len + size, rest := s.rest[len + size..],
       core := HandleLeaf(s.core, TopId(s.stack), id, s.rest[len..len + size]))
  }

  /** Takes in one element; `false` when there is nothing more to do until bytes arrive. */
  function Enter(s: State, id: nat, size: Option<nat>, len: nat): (State, bool)
    requires len <= |s.rest|
  {
    if IsDescendMaster(id) then (Open(s, id, size, len), true)
    else if size.None? then (s.(halted := true), false)
    else if len + size.value > |s.rest| then (s, false)
    else (Leaf(s, id, size.value, len), true)
  }

  function Step(s: State): (r: (State, bool))
    ensures r.1 ==> |r.0.rest| < |s.rest|
  {
    match ReadHeader(s.rest)
    case NoId => (s, false)
    case BadId => (s.(halted := true), false)
    case IdOnly(id) => (CloseBeforeSibling(s, id), false)
    case BadSize(id) => (CloseBeforeSibling(s, id).(halted := true), false)
    case Complete(id, size, len) => RestKept(s, id); Enter(CloseBeforeSibling(s, id), id, size, len)
  }

  lemma {:induction false} RestKept(s: State, id: nat)
    ensures var r := CloseBeforeSibling(s, id);
            r.rest == s.rest && r.pos == s.pos && r.base == s.base && r.halted == s.halted && r.nested == s.nested
    decreases |s.stack|
  {
    if IsSegmentLevelChild(id) && TopUnknownCluster(s.stack) {
      RestKept(Pop(s), id);
    }
  }

  lemma {:induction false} FinishKept(s: State)
    ensures var r := CloseFinished(s);
            r.rest == s.rest && r.pos == s.pos && r.base == s.base && r.halted == s.halted && r.nested == s.nested
    decreases |s.stack|
  {
    if TopFinished(s.stack, s.pos) {
      FinishKept(Pop(s));
    }
  }

  lemma StepNotHalted(s: State)
    requires !s.halted && Step(s).1
    ensures !Step(s).0.halted
  {
    hide ReadHeader, CloseBeforeSibling, HandleLeaf, OnOpen;
    var h := ReadHeader(s.rest);
    if !h.NoId? && !h.BadId? {
      RestKept(s, h.id);
    }
  }

  /** Elements one after another until the bytes run out or the reader halts. */
  function Run(s: State): State
    decreases |s.rest|
  {
    FinishKept(s);
    var (next, more) := Step(CloseFinished(s));
    if more then Run(next) else next
  }

  function Pump(s: State): State
  {
    if s.halted then s else Run(s)
  }

  function Feed(s: State, chunk: seq<Byte>): State
  {
    s.(rest := s.rest + chunk)
  }

  // ---- Compaction ----

  const COMPACT_AT: nat := 64 * 1024

  /** Whether the consumed part of the buffer is dropped now: all of 64 KiB, or half the buffer. */
  predicate CompactsNow(s: State)
  {
    && s.pos > s.base
    && !(s.pos - s.base < COMPACT_AT && (s.pos - s.base) * 2 < s.pos - s.base + |s.rest|)
  }

  /** An end before the dropped offset wraps around in the reader's 64-bit arithmetic. */
  function WrapEnd(e: OpenElement, pos: nat): OpenElement
  {
    if e.end.Some? && e.end.value < pos then e.(end := Some(pos + (e.end.value - pos as int) % U64_LIMIT)) else e
  }

  function WrapEnds(stack: seq<OpenElement>, pos: nat): (r: seq<OpenElement>)
    ensures |r| == |stack|
  {
    seq(|stack|, i requires 0 <= i < |stack| => WrapEnd(stack[i], pos))
  }

  function Compact(s: State): State
  {
    if CompactsNow(s) then s.(base := s.pos, stack := WrapEnds(s.stack, s.pos)) else s
  }

  function Push(s: State, chunk: seq<Byte>): State
  {
    Compact(Pump(Feed(s, chunk)))
  }

  function PushAll(chunks: seq<seq<Byte>>): State
  {
    if chunks == [] then START else Push(PushAll(chunks[..|chunks| - 1]), chunks[|chunks| - 1])
  }
}
