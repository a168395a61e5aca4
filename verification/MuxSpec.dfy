/** What the writer puts on the wire, element by element, and the writer as a pure machine. */
module MuxSpec {
  import opened Bytes
  import opened Vint
  import opened Lacing
  import opened Ids
  import opened DemuxSpec

  // ---- Elements ----

  function Elem(id: nat, body: seq<Byte>): (s: seq<Byte>)
    ensures |s| > |body|
  {
    IdBytes(id) + SizeBytes(|body|) + body
  }

  function DropZeros(s: seq<Byte>): (r: seq<Byte>)
    requires s != []
    ensures 1 <= |r| <= |s|
  {
    if |s| == 1 || s[0] != 0 then s else DropZeros(s[1..])
  }

  /** The shortest big-endian form of a 64-bit value; zero takes one byte. */
  function UintBody(v: nat): (s: seq<Byte>)
    ensures 1 <= |s| <= 8
  {
    DropZeros(BigEndian(v, 8))
  }

  lemma {:induction false} DropZerosKeepsValue(s: seq<Byte>)
    requires s != []
    ensures FromBigEndian(DropZeros(s)) == FromBigEndian(s)
  {
    if |s| > 1 && s[0] == 0 {
      FromBigEndianFirst(s);
      DropZerosKeepsValue(s[1..]);
    }
  }

  /** An unsigned element reads back as the 64-bit value written. */
  lemma UintRoundTrip(v: nat)
    requires v < U64_LIMIT
    ensures ReadUint(UintBody(v)) == Some(v)
  {
    assert Pow256(8) == U64_LIMIT;
    DropZerosKeepsValue(BigEndian(v, 8));
    BigEndianRoundTrip(v, 8);
  }

  function UintElem(id: nat, v: nat): seq<Byte>
  {
    Elem(id, UintBody(v))
  }

  /** ASCII "webm". */
  const WEBM: seq<Byte> := [0x77, 0x65, 0x62, 0x6D]

  function EbmlHeaderBody(): seq<Byte>
  {
    UintElem(EBML_VERSION, 1) + UintElem(EBML_READ_VERSION, 1) + UintElem(EBML_MAX_ID_LENGTH, 4)
    + UintElem(EBML_MAX_SIZE_LENGTH, 8) + Elem(DOC_TYPE, WEBM) + UintElem(DOC_TYPE_VERSION, 2)
    + UintElem(DOC_TYPE_READ_VERSION, 2)
  }

  function PrivateElem(t: TrackInfo): seq<Byte>
  {
    match t.codecPrivate case None => [] case Some(cp) => Elem(CODEC_PRIVATE, cp)
  }

  const VIDEO_TYPE: nat := 1

  function VideoBody(t: TrackInfo): seq<Byte>
  {
    UintElem(PIXEL_WIDTH, t.width) + UintElem(PIXEL_HEIGHT, t.height)
  }

  function AudioBody(t: TrackInfo): seq<Byte>
  {
    Elem(SAMPLING_FREQUENCY, t.sampleRate) + UintElem(CHANNELS, t.channels)
  }

  function MediaElem(t: TrackInfo): seq<Byte>
  {
    if t.trackType == VIDEO_TYPE then Elem(VIDEO, VideoBody(t)) else Elem(AUDIO, AudioBody(t))
  }

  function TrackEntryBody(t: TrackInfo): seq<Byte>
  {
    UintElem(TRACK_NUMBER, t.trackNumber) + UintElem(TRACK_TYPE, t.trackType) + Elem(CODEC_ID, t.codecId)
    + PrivateElem(t) + MediaElem(t)
  }

  function TrackEntries(tracks: seq<TrackInfo>): seq<Byte>
  {
    if tracks == [] then []
    else TrackEntries(tracks[..|tracks| - 1]) + Elem(TRACK_ENTRY, TrackEntryBody(tracks[|tracks| - 1]))
  }

  function TracksElem(tracks: seq<TrackInfo>): seq<Byte>
  {
    if tracks == [] then [] else Elem(TRACKS, TrackEntries(tracks))
  }

  /** Everything before the first Cluster: EBML header, Segment of unknown size, Info, Tracks. */
  function FileHeader(scale: nat, tracks: seq<TrackInfo>): seq<Byte>
  {
    Elem(EBML_HEADER, EbmlHeaderBody()) + IdBytes(SEGMENT) + UnknownBytes(4)
    + Elem(SEGMENT_INFO, UintElem(TIMECODE_SCALE, scale)) + TracksElem(tracks)
  }

  // ---- Blocks ----

  datatype Block = Block(track: nat, relative: int, isKeyframe: bool, payloads: seq<seq<Byte>>)

  const MAX_LACED_FRAMES: nat := 256

  predicate Fits16(v: int)
  {
    -0x8000 <= v <= 0x7FFF
  }

  predicate Writable(b: Block)
  {
    Fits16(b.relative) && 1 <= |b.payloads| <= MAX_LACED_FRAMES
  }

  function SignedPairBytes(v: int): (s: seq<Byte>)
    requires Fits16(v)
    ensures |s| == 2 && SignedPair(s[0], s[1]) == v
  {
    var u := if v < 0 then v + 0x1_0000 else v;
    [u / 256, u % 256]
  }

  function BlockFlags(b: Block): Byte
  {
    (if b.isKeyframe then 0x80 else 0) + (if |b.payloads| == 1 then 0 else 6)
  }

  function BlockHead(b: Block): seq<Byte>
    requires Writable(b)
  {
    SizeBytes(b.track) + SignedPairBytes(b.relative) + [BlockFlags(b)]
  }

  function BlockBody(b: Block): seq<Byte>
    requires Writable(b)
  {
    BlockHead(b) + if |b.payloads| == 1 then b.payloads[0] else LacedBody(b.payloads)
  }

  function BlockElem(b: Block): seq<Byte>
    requires Writable(b)
  {
    Elem(SIMPLE_BLOCK, BlockBody(b))
  }

  /** The base a Cluster is given: never a negative one. */
  function StoredBase(base: I64): (r: I64)
    ensures r >= 0
  {
    if base < 0 then 0 else base
  }

  function ClusterBody(base: I64, blocks: seq<Byte>): seq<Byte>
  {
    UintElem(TIMECODE, StoredBase(base)) + blocks
  }

  function ClusterElem(base: I64, blocks: seq<Byte>): seq<Byte>
  {
    Elem(CLUSTER, ClusterBody(base, blocks))
  }

  // ---- The machine ----

  datatype MuxError =
    | InvalidTrackNumber
    | DuplicateTrack(number: nat)
    | UnknownTrack(number: nat)
    | EmptyLace
    | LaceTooLarge(count: nat)

  /** `polled` is all the caller has taken, `pending` the output it has not, `cluster` blocks not yet in a Cluster. */
  datatype MuxState = MuxState(
    tracks: seq<TrackInfo>, scale: nat, batch: nat, polled: seq<Byte>, pending: seq<Byte>,
    cluster: seq<Byte>, clusterTimecode: Option<I64>, clusterFrames: nat)

  function NewMux(scale: nat, batch: nat): MuxState
  {
    MuxState([], if scale < 1 then 1 else scale, if batch < 1 then 1 else batch, [], [], [], None, 0)
  }

  predicate Registered(tracks: seq<TrackInfo>, number: nat)
  {
    exists i | 0 <= i < |tracks| :: tracks[i].trackNumber == number
  }

  function AddTrack(m: MuxState, t: TrackInfo): (MuxState, Option<MuxError>)
  {
    if t.trackNumber == 0 then (m, Some(InvalidTrackNumber))
    else if Registered(m.tracks, t.trackNumber) then (m, Some(DuplicateTrack(t.trackNumber)))
    else (m.(tracks := m.tracks + [t]), None)
  }

  function Begin(m: MuxState): MuxState
  {
    m.(pending := m.pending + FileHeader(m.scale, m.tracks))
  }

  function CloseCluster(m: MuxState): MuxState
  {
    if m.clusterTimecode.None? || m.cluster == []
    then m.(cluster := [], clusterTimecode := None, clusterFrames := 0)
    else m.(pending := m.pending + ClusterElem(m.clusterTimecode.value, m.cluster),
            cluster := [], clusterTimecode := None, clusterFrames := 0)
  }

  /** The difference of two timecodes in 64-bit arithmetic. */
  function Since(timecode: int, base: int): int
  {
    AsI64(timecode - base)
  }

  predicate NeedsCluster(m: MuxState, timecode: int)
  {
    || m.clusterTimecode.None?
    || m.clusterFrames >= m.batch
    || !Fits16(Since(timecode, m.clusterTimecode.value))
  }

  function OpenClusterFor(m: MuxState, timecode: I64): (r: MuxState)
    ensures r.clusterTimecode.Some?
  {
    if NeedsCluster(m, timecode) then CloseCluster(m).(clusterTimecode := Some(timecode)) else m
  }

  function PushBlock(m: MuxState, track: nat, timecode: I64, isKeyframe: bool, payloads: seq<seq<Byte>>): MuxState
    requires 1 <= |payloads| <= MAX_LACED_FRAMES
  {
    var o := OpenClusterFor(m, timecode);
    var b := Block(track, Since(timecode, o.clusterTimecode.value), isKeyframe, payloads);
    if !Writable(b) then o
    else o.(cluster := o.cluster + BlockElem(b), clusterFrames := o.clusterFrames + 1)
  }

  /** The relative timecode of an opened Cluster always fits. */
  lemma OpenedFits(m: MuxState, timecode: I64)
    ensures Fits16(Since(timecode, OpenClusterFor(m, timecode).clusterTimecode.value))
  {
  }

  datatype Op =
    | PushFrame(track: nat, timecode: I64, isKeyframe: bool, payload: seq<Byte>)
    | PushLaced(track: nat, timecode: I64, isKeyframe: bool, payloads: seq<seq<Byte>>)
    | Flush
    | Poll

  /** Why a push is refused, if it is. */
  function Refusal(tracks: seq<TrackInfo>, op: Op): Option<MuxError>
  {
    match op
    case PushFrame(track, _, _, _) => if Registered(tracks, track) then None else Some(UnknownTrack(track))
    case PushLaced(track, _, _, payloads) =>
      if payloads == [] then Some(EmptyLace)
      else if |payloads| > MAX_LACED_FRAMES then Some(LaceTooLarge(|payloads|))
      else if Registered(tracks, track) then None
      else Some(UnknownTrack(track))
    case _ => None
  }

  function Apply(m: MuxState, op: Op): MuxState
  {
    if Refusal(m.tracks, op).Some? then m
    else match op
      case PushFrame(track, timecode, key, payload) => PushBlock(m, track, timecode, key, [payload])
      case PushLaced(track, timecode, key, payloads) => PushBlock(m, track, timecode, key, payloads)
      case Flush => CloseCluster(m)
      case Poll => m.(polled := m.polled + m.pending, pending := [])
  }

  function ApplyAll(m: MuxState, ops: seq<Op>): MuxState
  {
    if ops == [] then m else Apply(ApplyAll(m, ops[..|ops| - 1]), ops[|ops| - 1])
  }

  // ---- The first bytes of a file ----

  /** An unsigned value's body has no leading zero byte, except that zero itself takes one. */
  lemma {:induction false} UintShortest(v: nat)
    ensures UintBody(v)[0] != 0 || |UintBody(v)| == 1
  {
    hide BigEndian;
    NoLeadingZero(BigEndian(v, 8));
  }

  lemma {:induction false} NoLeadingZero(s: seq<Byte>)
    requires s != []
    ensures DropZeros(s)[0] != 0 || |DropZeros(s)| == 1
  {
    if |s| > 1 && s[0] == 0 {
      NoLeadingZero(s[1..]);
    }
  }

  lemma SmallUint(id: nat, v: Byte)
    requires 0x4000 <= id < 0x8000 && v > 0
    ensures UintElem(id, v) == [id / 256, id % 256, 0x81, v]
  {
    hide BigEndian, DropZeros, SizeBytes;
    SmallBody(v);
    ShortId(id);
    OneByteSize(1);
  }

  lemma ShortId(id: nat)
    requires 0x4000 <= id < 0x8000
    ensures IdBytes(id) == [id / 256, id % 256]
  {
    assert BigEndian(id, 2) == BigEndian(id / 256, 1) + [id % 256];
    assert BigEndian(id / 256, 1) == [] + [id / 256 % 256];
  }

  lemma OneByteSize(n: nat)
    requires n < 0x7F
    ensures SizeBytes(n) == [0x80 + n]
  {
    assert BigEndian(0x80 + n, 1) == [] + [(0x80 + n) % 256];
  }

  lemma SmallBody(v: Byte)
    requires v > 0
    ensures UintBody(v) == [v]
  {
    hide BigEndian, DropZeros;
    SmallBigEndian(v, 8);
    OneDigit(8, v);
  }

  function Zeros(n: nat): (s: seq<Byte>)
    ensures |s| == n
  {
    seq<Byte>(n, _ => 0)
  }

  lemma {:induction false} SmallBigEndian(v: Byte, len: nat)
    requires len >= 1
    ensures BigEndian(v, len) == Zeros(len - 1) + [v]
  {
    if len > 1 {
      ZeroBigEndian(len - 1);
      assert v / 256 == 0;
    }
  }

  lemma {:induction false} ZeroBigEndian(len: nat)
    ensures BigEndian(0, len) == Zeros(len)
  {
    if len > 0 {
      ZeroBigEndian(len - 1);
    }
  }

  lemma {:induction false} OneDigit(n: nat, v: Byte)
    requires n >= 1 && v > 0
    ensures DropZeros(Zeros(n - 1) + [v]) == [v]
  {
    if n > 1 {
      assert (Zeros(n - 1) + [v])[1..] == Zeros(n - 2) + [v];
      OneDigit(n - 1, v);
    }
  }

  /** The EBML header, byte for byte: version 1, IDs of 4 and sizes of 8 bytes at most, type "webm" in version 2. */
  lemma {:induction false} EbmlHeaderBytes()
    ensures Elem(EBML_HEADER, EbmlHeaderBody()) ==
            [0x1A, 0x45, 0xDF, 0xA3, 0x9F]
            + [0x42, 0x86, 0x81, 1] + [0x42, 0xF7, 0x81, 1] + [0x42, 0xF2, 0x81, 4] + [0x42, 0xF3, 0x81, 8]
            + [0x42, 0x82, 0x84, 0x77, 0x65, 0x62, 0x6D] + [0x42, 0x87, 0x81, 2] + [0x42, 0x85, 0x81, 2]
  {
    hide IdBytes, SizeBytes, EbmlHeaderBody;
    HeaderBodyBytes();
    OneByteSize(31);
    EbmlId();
  }

  lemma HeaderBodyBytes()
    ensures |EbmlHeaderBody()| == 31
    ensures EbmlHeaderBody() ==
            [0x42, 0x86, 0x81, 1] + [0x42, 0xF7, 0x81, 1] + [0x42, 0xF2, 0x81, 4] + [0x42, 0xF3, 0x81, 8]
            + [0x42, 0x82, 0x84, 0x77, 0x65, 0x62, 0x6D] + [0x42, 0x87, 0x81, 2] + [0x42, 0x85, 0x81, 2]
  {
    hide UintElem, Elem;
    SmallUint(EBML_VERSION, 1);
    SmallUint(EBML_READ_VERSION, 1);
    SmallUint(EBML_MAX_ID_LENGTH, 4);
    SmallUint(EBML_MAX_SIZE_LENGTH, 8);
    SmallUint(DOC_TYPE_VERSION, 2);
    SmallUint(DOC_TYPE_READ_VERSION, 2);
    DocType();
  }

  lemma DocType()
    ensures Elem(DOC_TYPE, WEBM) == [0x42, 0x82, 0x84, 0x77, 0x65, 0x62, 0x6D]
  {
    hide IdBytes, SizeBytes;
    ShortId(DOC_TYPE);
    OneByteSize(4);
  }

  lemma EbmlId()
    ensures IdBytes(EBML_HEADER) == [0x1A, 0x45, 0xDF, 0xA3]
  {
    hide BigEndian;
    FourBytes(EBML_HEADER);
  }

  lemma FourBytes(v: nat)
    ensures BigEndian(v, 4) == [v / 0x100_0000 % 256, v / 0x1_0000 % 256, v / 256 % 256, v % 256]
  {
    assert BigEndian(v / 256 / 256 / 256, 1) == [] + [v / 256 / 256 / 256 % 256];
    assert BigEndian(v / 256 / 256, 2) == BigEndian(v / 256 / 256 / 256, 1) + [v / 256 / 256 % 256];
    assert BigEndian(v / 256, 3) == BigEndian(v / 256 / 256, 2) + [v / 256 % 256];
    assert v / 256 / 256 == v / 0x1_0000 && v / 256 / 256 / 256 == v / 0x100_0000;
  }

  /** A Segment begins with its ID and a size that stands for unknown. */
  lemma {:induction false} SegmentStart()
    ensures IdBytes(SEGMENT) + UnknownBytes(4) == [0x18, 0x53, 0x80, 0x67, 0x1F, 0xFF, 0xFF, 0xFF]
  {
    hide BigEndian;
    FourBytes(SEGMENT);
    FourBytes(0x1FFF_FFFF);
  }
}
